/**
 * Shared vocabulary of the model: optional values and results, record
 * identifiers and timestamps, the string operations the server relies on
 * (JavaScript whitespace, `trim`, `toLowerCase`, truthiness), and the ordered
 * guard list with which every handler decides its reply.
 */
module Common {

  datatype Option<T> = None | Some(value: T)

  datatype Result<T, E> = Ok(value: T) | Err(error: E)

  /** A document identifier (a MongoDB ObjectId). */
  type Id = nat

  /** A point in time, in milliseconds since the epoch (a JavaScript Date). */
  type Millis = int

  /** One day in milliseconds: 1000 * 60 * 60 * 24. */
  const DayMs: int := 86_400_000

  /**
   * JavaScript's `\s` class, which is also the set `String.prototype.trim`
   * removes: the ECMAScript WhiteSpace and LineTerminator code points.
   */
  predicate IsSpace(c: char)
  {
    c == '\t' || c == '\n' || c == '\U{000B}' || c == '\U{000C}' || c == '\r' || c == ' '
    || c == '\U{00A0}' || c == '\U{1680}' || ('\U{2000}' <= c <= '\U{200A}')
    || c == '\U{2028}' || c == '\U{2029}' || c == '\U{202F}' || c == '\U{205F}'
    || c == '\U{3000}' || c == '\U{FEFF}'
  }

  predicate NoSpace(s: string)
  {
    forall i :: 0 <= i < |s| ==> !IsSpace(s[i])
  }

  /** JavaScript truthiness of an optional string: present and not empty. */
  predicate Truthy(s: Option<string>)
  {
    s.Some? && s.value != ""
  }

  /** `x || null` for an optional string. */
  function OrNull(s: Option<string>): (r: Option<string>)
    ensures r.Some? <==> Truthy(s)
    ensures r.Some? ==> r == s
  {
    if Truthy(s) then s else None
  }

  /** Drops leading whitespace. */
  function TrimStart(s: string): string
  {
    if s == [] || !IsSpace(s[0]) then s else TrimStart(s[1..])
  }

  /**
   * `TrimStart` keeps a suffix, drops only whitespace, and leaves no
   * whitespace at the front.
   */
  lemma {:induction false} TrimStartShape(s: string)
    ensures var r := TrimStart(s);
      && |r| <= |s| && r == s[|s| - |r|..]
      && (forall i :: 0 <= i < |s| - |r| ==> IsSpace(s[i]))
      && (r == [] || !IsSpace(r[0]))
  {
    if s != [] && IsSpace(s[0]) {
      var t := s[1..];
      TrimStartShape(t);
      var r := TrimStart(t);
      assert TrimStart(s) == r;
      assert t[|t| - |r|..] == s[|s| - |r|..];
      forall i | 0 <= i < |s| - |r|
        ensures IsSpace(s[i])
      {
        if i > 0 {
          assert s[i] == t[i - 1];
        }
      }
    }
  }

  /** Drops trailing whitespace. */
  function TrimEnd(s: string): string
  {
    if s == [] || !IsSpace(s[|s| - 1]) then s else TrimEnd(s[..|s| - 1])
  }

  /**
   * `TrimEnd` keeps a prefix, drops only whitespace, and leaves no
   * whitespace at the back.
   */
  lemma {:induction false} TrimEndShape(s: string)
    ensures var r := TrimEnd(s);
      && |r| <= |s| && r == s[..|r|]
      && (forall i :: |r| <= i < |s| ==> IsSpace(s[i]))
      && (r == [] || !IsSpace(r[|r| - 1]))
  {
    if s != [] && IsSpace(s[|s| - 1]) {
      var t := s[..|s| - 1];
      TrimEndShape(t);
      var r := TrimEnd(t);
      assert TrimEnd(s) == r;
      assert t[..|r|] == s[..|r|];
      forall i | |r| <= i < |s|
        ensures IsSpace(s[i])
      {
        if i < |s| - 1 {
          assert s[i] == t[i];
        }
      }
    }
  }

  /** `String.prototype.trim`. */
  function Trim(s: string): string
  {
    TrimEnd(TrimStart(s))
  }

  /** An all-whitespace string trims to nothing from the left. */
  lemma {:induction false} BlankTrimsAway(s: string)
    requires forall i :: 0 <= i < |s| ==> IsSpace(s[i])
    ensures TrimStart(s) == []
  {
    if s != [] {
      BlankTrimsAway(s[1..]);
    }
  }

  /** A trimmed string is empty exactly when the input is all whitespace. */
  lemma TrimEmptyIffBlank(s: string)
    ensures Trim(s) == [] <==> forall i :: 0 <= i < |s| ==> IsSpace(s[i])
  {
    TrimStartShape(s);
    TrimEndShape(TrimStart(s));
    if forall i :: 0 <= i < |s| ==> IsSpace(s[i]) {
      BlankTrimsAway(s);
    }
  }

  /** Trimming is idempotent. */
  lemma TrimIdempotent(s: string)
    ensures Trim(Trim(s)) == Trim(s)
  {
    var t := Trim(s);
    TrimStartShape(s);
    TrimEndShape(TrimStart(s));
    if t != [] {
      assert TrimStart(t) == t;
      assert TrimEnd(t) == t;
    }
  }

  /** Whitespace is kept verbatim by lower-casing. */
  function LowerChar(c: char): (r: char)
    ensures IsSpace(r) <==> IsSpace(c)
  {
    if 'A' <= c <= 'Z' then (c as int + 32) as char else c
  }

  /** `String.prototype.toLowerCase`, restricted to the ASCII letters. */
  function ToLower(s: string): (r: string)
    ensures |r| == |s|
    ensures forall i :: 0 <= i < |s| ==> r[i] == LowerChar(s[i])
  {
    seq(|s|, i requires 0 <= i < |s| => LowerChar(s[i]))
  }

  /** The email normalisation of the user schema: lower-cased, then trimmed. */
  function NormalizeEmail(s: string): string
  {
    Trim(ToLower(s))
  }

  /**
   * Normalising an already normalised email changes nothing, so the schema's
   * setters keep the value `createAdmin` computes.
   */
  lemma NormalizeEmailIdempotent(s: string)
    ensures NormalizeEmail(NormalizeEmail(s)) == NormalizeEmail(s)
  {
    var l := ToLower(s);
    var t := TrimStart(l);
    var n := TrimEnd(t);
    var k := |l| - |t|;
    TrimStartShape(l);
    TrimEndShape(t);
    assert t == l[k..];
    assert n == t[..|n|];
    assert n == l[k..k + |n|];
    LowerSliceIsLower(s, k, k + |n|);
    assert ToLower(n) == n;
    TrimIdempotent(l);
    assert Trim(n) == n;
  }

  /** Lower-casing leaves any piece of a lower-cased string as it is. */
  lemma LowerSliceIsLower(s: string, a: nat, b: nat)
    requires a <= b <= |s|
    ensures ToLower(ToLower(s)[a..b]) == ToLower(s)[a..b]
  {
  }

  /**
   * One guard of a handler: whether it passes, and the failure it reports
   * when it does not.
   */
  datatype Check<E> = Check(passes: bool, failure: E)

  /** Check `i` fails and every check before it passes. */
  predicate FailsFirstAt<E>(checks: seq<Check<E>>, i: nat)
    requires i < |checks|
  {
    !checks[i].passes && forall j :: 0 <= j < i ==> checks[j].passes
  }

  /**
   * The reply-deciding failure of an ordered series of guards: the first
   * one that does not pass, or None when all pass.
   */
  function FirstFailure<E>(checks: seq<Check<E>>): (r: Option<E>)
    ensures r.None? <==> forall i :: 0 <= i < |checks| ==> checks[i].passes
  {
    if |checks| == 0 then None
    else if !checks[0].passes then Some(checks[0].failure)
    else FirstFailure(checks[1..])
  }

  /** The failing guard that comes first decides the reply. */
  lemma {:induction false} FirstFailureIsFirst<E>(checks: seq<Check<E>>, i: nat)
    requires i < |checks| && FailsFirstAt(checks, i)
    ensures FirstFailure(checks) == Some(checks[i].failure)
  {
    if i > 0 {
      assert checks[0].passes;
      assert FailsFirstAt(checks[1..], i - 1);
      FirstFailureIsFirst(checks[1..], i - 1);
    }
  }
}

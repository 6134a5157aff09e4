/**
 * The command-line script that seeds the first administrator: it reads the
 * name, email and password from the positional arguments, lists every
 * validation error in a fixed order, exits with code 1 before touching the
 * database when there is any, and otherwise delegates to `createAdmin`.
 */
module AdminSeed {
  import opened Common
  import opened UserModel
  import opened Database
  import opened AdminCreation

  datatype Args = Args(name: Option<string>, email: Option<string>, password: Option<string>)

  /** `argv[i]`, or `undefined` past the end. */
  function Arg(argv: seq<string>, i: nat): Option<string>
  {
    if i < |argv| then Some(argv[i]) else None
  }

  /** `process.argv.slice(2)` destructured into name, email and password. */
  function ParseArgs(argv: seq<string>): Args
  {
    Args(Arg(argv, 2), Arg(argv, 3), Arg(argv, 4))
  }

  /**
   * The three values come from positions 2, 3 and 4 (after the runtime and
   * the script path), extra arguments are ignored, and a position that is
   * absent reads as undefined.
   */
  lemma ParseArgsPositions(argv: seq<string>)
    ensures var a := ParseArgs(argv);
      && (a.name.Some? <==> |argv| > 2) && (a.email.Some? <==> |argv| > 3) && (a.password.Some? <==> |argv| > 4)
      && (|argv| > 4 ==> a == Args(Some(argv[2]), Some(argv[3]), Some(argv[4])))
      && ParseArgs(argv[..if |argv| < 5 then |argv| else 5]) == a
  {
  }

  const NameRequired: string := "name is required"
  const EmailInvalid: string := "email must be a valid email address"
  const PasswordTooShort: string := "password must be at least 6 characters"

  /** The fixed order in which the errors are reported. */
  const Messages: seq<string> := [NameRequired, EmailInvalid, PasswordTooShort]

  /** `!name || name.trim().length === 0` fails. */
  predicate NameValid(name: Option<string>)
  {
    Truthy(name) && |Trim(name.value)| != 0
  }

  /** A name is accepted exactly when it is present and not all whitespace. */
  lemma NameValidIffNotBlank(name: Option<string>)
    ensures NameValid(name) <==> name.Some? && exists i :: 0 <= i < |name.value| && !IsSpace(name.value[i])
  {
    if name.Some? {
      TrimEmptyIffBlank(name.value);
    }
  }

  /** A character of the class `[^\s@]`. */
  predicate Plain(c: char)
  {
    !IsSpace(c) && c != '@'
  }

  predicate AllPlain(s: string)
  {
    forall i :: 0 <= i < |s| ==> Plain(s[i])
  }

  /**
   * `/^[^\s@]+@[^\s@]+\.[^\s@]+$/`: a run of plain characters, an '@', a
   * run of plain characters, a '.', and a run of plain characters. The
   * middle run may hold dots itself, so `j` is any of the domain's dots.
   */
  ghost predicate MatchesEmailPattern(s: string)
  {
    exists i, j :: 0 < i && i + 1 < j && j + 1 < |s| && s[i] == '@' && s[j] == '.'
      && AllPlain(s[..i]) && AllPlain(s[i + 1..j]) && AllPlain(s[j + 1..])
  }

  /** The index of the first occurrence of `c` in `s`, or `|s|`. */
  function IndexOf(s: string, c: char): (k: nat)
    ensures k <= |s|
    ensures k < |s| ==> s[k] == c
    ensures forall i :: 0 <= i < k ==> s[i] != c
  {
    if s == [] then 0
    else if s[0] == c then 0
    else 1 + IndexOf(s[1..], c)
  }

  /** The domain has a dot with at least one character on each side. */
  predicate HasInnerDot(d: string)
  {
    exists j :: 0 < j < |d| - 1 && d[j] == '.'
  }

  /** The regular expression's test, as a direct scan. */
  predicate EmailValid(email: Option<string>)
  {
    Truthy(email) &&
    var s := email.value;
    var at := IndexOf(s, '@');
    0 < at < |s| && AllPlain(s[..at]) && AllPlain(s[at + 1..]) && HasInnerDot(s[at + 1..])
  }

  /**
   * The scan accepts exactly the strings the pattern matches: no whitespace,
   * exactly one '@' with something before it, and a dot in the domain with
   * characters on both sides.
   */
  lemma EmailValidIffPattern(email: Option<string>)
    ensures EmailValid(email) <==> email.Some? && MatchesEmailPattern(email.value)
  {
    if email.Some? {
      if EmailValid(email) {
        ScanFindsPattern(email.value);
      }
      if MatchesEmailPattern(email.value) {
        PatternPassesScan(email.value);
      }
    }
  }

  lemma ScanFindsPattern(s: string)
    requires EmailValid(Some(s))
    ensures MatchesEmailPattern(s)
  {
    var at := IndexOf(s, '@');
    var d := s[at + 1..];
    var j :| 0 < j < |d| - 1 && d[j] == '.';
    assert s[at + 1 + j] == '.';
    assert s[at + 1..at + 1 + j] == d[..j];
    assert s[at + 1 + j + 1..] == d[j + 1..];
    assert AllPlain(d[..j]) && AllPlain(d[j + 1..]);
  }

  lemma PatternPassesScan(s: string)
    requires MatchesEmailPattern(s)
    ensures EmailValid(Some(s))
  {
    var i, j :| 0 < i && i + 1 < j && j + 1 < |s| && s[i] == '@' && s[j] == '.'
      && AllPlain(s[..i]) && AllPlain(s[i + 1..j]) && AllPlain(s[j + 1..]);
    FirstAtIsAfterPlainRun(s, i);
    PlainAroundDot(s, i, j);
    assert s[i + 1..][j - i - 1] == '.';
  }

  /** An '@' after a run of plain characters is the first '@'. */
  lemma FirstAtIsAfterPlainRun(s: string, i: nat)
    requires i < |s| && s[i] == '@' && AllPlain(s[..i])
    ensures IndexOf(s, '@') == i
  {
    forall k | 0 <= k < i
      ensures s[k] != '@'
    {
      assert s[..i][k] == s[k];
    }
  }

  /** Two plain runs joined by a dot make a plain run. */
  lemma PlainAroundDot(s: string, i: nat, j: nat)
    requires i < j < |s| && s[j] == '.' && AllPlain(s[i + 1..j]) && AllPlain(s[j + 1..])
    ensures AllPlain(s[i + 1..])
  {
    var d := s[i + 1..];
    forall k | 0 <= k < |d|
      ensures Plain(d[k])
    {
      if k < j - i - 1 {
        assert d[k] == s[i + 1..j][k];
      } else if k > j - i - 1 {
        assert d[k] == s[j + 1..][k - (j - i)];
      }
    }
  }

  /** `!password || password.length < 6` fails. */
  predicate PasswordValid(password: Option<string>)
  {
    Truthy(password) && |password.value| >= MinPasswordLength
  }

  /** Whether the check that reports `Messages[k]` fails. */
  predicate Fails(args: Args, k: nat)
  {
    match k
    case 0 => !NameValid(args.name)
    case 1 => !EmailValid(args.email)
    case 2 => !PasswordValid(args.password)
    case _ => false
  }

  /**
   * `validateArgs`: the reported messages are exactly those of the failing
   * checks, each once and in the fixed order name, email, password, so the
   * list is empty exactly when all three checks pass.
   */
  method ValidateArgs(args: Args) returns (errors: seq<string>)
    ensures forall k :: 0 <= k < |Messages| ==> (Messages[k] in errors <==> Fails(args, k))
    ensures forall e :: e in errors ==> e in Messages
    ensures forall a, b :: 0 <= a < b < |errors| ==> IndexIn(errors[a]) < IndexIn(errors[b])
    ensures errors == [] <==> NameValid(args.name) && EmailValid(args.email) && PasswordValid(args.password)
  {
    errors := [];
    if !Truthy(args.name) || |Trim(args.name.value)| == 0 {
      errors := errors + [NameRequired];
    }
    if !EmailValid(args.email) {
      errors := errors + [EmailInvalid];
    }
    if !Truthy(args.password) || |args.password.value| < MinPasswordLength {
      errors := errors + [PasswordTooShort];
    }
  }

  /** The position of a message in the fixed order. */
  function IndexIn(e: string): nat
  {
    if e == NameRequired then 0 else if e == EmailInvalid then 1 else 2
  }

  /** How the script ends. */
  datatype Exit = Exit(code: nat, connected: bool)

  /**
   * `seedAdmin`: with any validation error the script exits with code 1 and
   * never connects; otherwise it connects and calls `createAdmin`, exiting
   * with 0 when an admin was created and with 1 when one already existed or
   * the creation threw.
   */
  method SeedAdmin(argv: seq<string>, db: Store, hash: string -> string) returns (exit: Exit)
    modifies db
    ensures var a := ParseArgs(argv);
      !(NameValid(a.name) && EmailValid(a.email) && PasswordValid(a.password)) ==>
        exit == Exit(1, false) && unchanged(db)
    ensures var a := ParseArgs(argv);
      NameValid(a.name) && EmailValid(a.email) && PasswordValid(a.password) ==>
        var (reply, db') := CreateAdminSpec(old(db.State()), a.name.value, a.email.value, a.password.value, hash);
        && exit.connected && db.State() == db'
        && (exit.code == 0 <==> reply.Ok? && reply.value.created)
        && (exit.code != 0 ==> exit.code == 1)
  {
    var args := ParseArgs(argv);
    var errors := ValidateArgs(args);
    if |errors| > 0 {
      return Exit(1, false);
    }
    var reply := CreateAdmin(db, args.name.value, args.email.value, args.password.value, hash);
    if reply.Err? || !reply.value.created {
      return Exit(1, true);
    }
    return Exit(0, true);
  }
}

/**
 * The client's route guard: while the session is being restored it renders
 * nothing; without a signed-in user it redirects to the login page; with a
 * role requirement the user's role must equal it (a string) or be one of
 * its entries (an array), or the guard redirects home; otherwise it renders
 * the protected page.
 */
module ProtectedRoute {
  import opened Common

  /** The `role` prop: omitted, a string, or an array of strings. */
  datatype RoleRequirement = NoRequirement | OneRole(name: string) | AnyOf(names: seq<string>)

  /** The signed-in user as the auth context holds it. */
  datatype SessionUser = SessionUser(role: string)

  datatype Render = Nothing | RedirectToLogin | RedirectHome | Children

  /** `!role || (Array.isArray(role) ? role.includes(user.role) : user.role === role)`. */
  predicate Allowed(requirement: RoleRequirement, role: string)
  {
    match requirement
    case NoRequirement => true
    case OneRole(name) => name == "" || role == name
    case AnyOf(names) => role in names
  }

  /**
   * The page renders exactly when the session is restored, a user is signed
   * in, and the requirement admits the user's role; while initializing
   * nothing renders; a signed-out visitor goes to the login page whatever
   * the requirement; a signed-in user the requirement does not admit goes
   * home.
   */
  function Decide(initializing: bool, user: Option<SessionUser>, requirement: RoleRequirement): (r: Render)
    ensures r == Children <==> !initializing && user.Some? && Allowed(requirement, user.value.role)
    ensures r == Nothing <==> initializing
    ensures r == RedirectToLogin <==> !initializing && user.None?
    ensures r == RedirectHome <==> !initializing && user.Some? && !Allowed(requirement, user.value.role)
  {
    if initializing then Nothing
    else if user.None? then RedirectToLogin
    else if !Allowed(requirement, user.value.role) then RedirectHome
    else Children
  }

  /**
   * Requirements as the guard reads them: omitted admits everybody, a
   * string admits that role alone (an empty string counts as omitted), an
   * array admits exactly its entries, so an empty array admits nobody.
   */
  lemma AllowedMeaning(requirement: RoleRequirement, role: string)
    ensures requirement.NoRequirement? ==> Allowed(requirement, role)
    ensures requirement.OneRole? && requirement.name != "" ==> (Allowed(requirement, role) <==> role == requirement.name)
    ensures requirement == OneRole("") ==> Allowed(requirement, role)
    ensures requirement.AnyOf? ==> (Allowed(requirement, role) <==> exists i :: 0 <= i < |requirement.names| && requirement.names[i] == role)
    ensures requirement == AnyOf([]) ==> !Allowed(requirement, role)
  {
  }

  /** A one-entry array and the string it holds admit the same roles. */
  lemma SingletonArrayIsString(name: string, role: string)
    requires name != ""
    ensures Allowed(AnyOf([name]), role) <==> Allowed(OneRole(name), role)
  {
  }

  /** Adding entries to an array requirement only admits more users. */
  lemma WiderArrayAdmitsMore(names: seq<string>, more: seq<string>, user: Option<SessionUser>)
    ensures Decide(false, user, AnyOf(names)) == Children ==> Decide(false, user, AnyOf(names + more)) == Children
  {
  }
}

/**
 * The user schema: the role enumeration and its default, the reporting
 * manager reference, the email and password constraints, and the pre-save
 * hook that hashes a password only when it was modified.
 *
 * The schema declares no `userStatus` path. Under Mongoose's default strict
 * mode a value written to an undeclared path is dropped on create and on save,
 * and reading it through the document gives `undefined`. `UserSchema`
 * selects between the schema as declared and one that declares the path.
 */
module UserModel {
  import opened Common

  datatype Role = Employee | Manager | Admin

  function RoleName(r: Role): string
  {
    match r
    case Employee => "employee"
    case Manager => "manager"
    case Admin => "admin"
  }

  /** The role enumeration: the only strings the schema accepts. */
  function ParseRole(s: string): (r: Option<Role>)
    ensures r.Some? ==> RoleName(r.value) == s
  {
    if s == "employee" then Some(Employee)
    else if s == "manager" then Some(Manager)
    else if s == "admin" then Some(Admin)
    else None
  }

  /** Every role reads back as itself, and the three names are distinct. */
  lemma RoleNamesRoundTrip(r: Role)
    ensures ParseRole(RoleName(r)) == Some(r)
  {
  }

  const DefaultRole: Role := Employee

  /** The approval state the controllers read and write. */
  datatype UserStatus = Pending | Approved

  /** Whether the schema declares `userStatus` (it does not, as written). */
  datatype UserSchema = AsDeclared | WithUserStatus

  const MinPasswordLength: nat := 6

  /**
   * A stored user. `userStatus` is None when the stored document has no such
   * key, which under the declared schema is always the case.
   */
  datatype User = User(
    name: string,
    email: string,
    password: string,
    role: Role,
    managerId: Option<Id>,
    isActive: bool,
    userStatus: Option<UserStatus>)

  /** A user as `.select("-password")` returns it: every field but the password. */
  datatype PublicUser = PublicUser(
    name: string,
    email: string,
    role: Role,
    managerId: Option<Id>,
    isActive: bool,
    userStatus: Option<UserStatus>)

  /** The user object the account handlers reply with: no password field. */
  datatype UserSummary = UserSummary(id: Id, name: string, email: string, role: Role, userStatus: Option<UserStatus>)

  function Public(u: User): PublicUser
  {
    PublicUser(u.name, u.email, u.role, u.managerId, u.isActive, u.userStatus)
  }

  /** What a controller reads as `user.userStatus` from a fetched document. */
  function ReadStatus(schema: UserSchema, u: User): Option<UserStatus>
  {
    match schema
    case AsDeclared => None
    case WithUserStatus => u.userStatus
  }

  /** What a document keeps of a `userStatus` written to it when it is saved. */
  function KeepStatus(schema: UserSchema, s: Option<UserStatus>): Option<UserStatus>
  {
    match schema
    case AsDeclared => None
    case WithUserStatus => s
  }

  /** The validators of a new document: required name and email, password length. */
  predicate Validates(u: User)
  {
    u.name != "" && u.email != "" && |u.password| >= MinPasswordLength
  }

  /**
   * The validators `save()` runs again on a document fetched with
   * `.select("-password")`: the required name and email. The password path
   * was not selected, so its validators are skipped.
   */
  predicate ValidatesLoaded(u: User)
  {
    u.name != "" && u.email != ""
  }

  /**
   * A user document in memory: the fields a controller reads and assigns,
   * and whether the password path has been modified since it was loaded.
   */
  class UserDocument {
    var name: string
    var email: string
    var password: string
    var role: Role
    var managerId: Option<Id>
    var isActive: bool
    var userStatus: Option<UserStatus>
    var passwordModified: bool

    /**
     * `new User({ name, email, password, role })`: the setters trim the name
     * and lower-case and trim the email, the defaults fill the rest, and the
     * password counts as modified.
     */
    constructor (name: string, email: string, password: string, role: Role)
      ensures Record() == User(Trim(name), NormalizeEmail(email), password, role, None, true, None)
      ensures passwordModified
    {
      this.name := Trim(name);
      this.email := NormalizeEmail(email);
      this.password := password;
      this.role := role;
      this.managerId := None;
      this.isActive := true;
      this.userStatus := None;
      this.passwordModified := true;
    }

    /** A document hydrated from a stored record: nothing is modified yet. */
    constructor Load(u: User)
      ensures Record() == u && !passwordModified
    {
      name := u.name;
      email := u.email;
      password := u.password;
      role := u.role;
      managerId := u.managerId;
      isActive := u.isActive;
      userStatus := u.userStatus;
      passwordModified := false;
    }

    function Record(): User
      reads this
    {
      User(name, email, password, role, managerId, isActive, userStatus)
    }

    /**
     * The pre-save hook: the password is replaced by its hash when it was
     * modified and left as it is otherwise; no other field changes.
     */
    method PreSave(hash: string -> string)
      modifies this`password
      ensures password == if passwordModified then hash(old(password)) else old(password)
      ensures Record() == old(Record()).(password := password)
    {
      if !passwordModified {
        return;
      }
      password := hash(password);
    }
  }
}

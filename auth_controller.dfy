/**
 * Self-registration. The handler refuses a request missing a name, email or
 * password, a role other than employee or manager, and an email already in
 * use; it then creates the user through the schema (setters, validators,
 * pre-save hook) and replies with a summary that has no password field.
 */
module AuthController {
  import opened Common
  import opened UserModel
  import opened Database

  datatype AuthError = MissingFields | InvalidRole | EmailInUse | ServerError

  function HttpStatus(e: AuthError): nat
  {
    match e
    case MissingFields | InvalidRole => 400
    case EmailInUse => 409
    case ServerError => 500
  }

  /** The roles a registrant may ask for. */
  predicate SelfAssignable(role: string)
  {
    role == "employee" || role == "manager"
  }

  /**
   * The guards of `register`, in order. The email lookup goes through the
   * schema's setters, so it compares normalised emails.
   */
  function RegisterChecks(db: Db, name: Option<string>, email: Option<string>, password: Option<string>,
                          role: Option<string>): seq<Check<AuthError>>
  {
    [ Check(Truthy(name) && Truthy(email) && Truthy(password), MissingFields),
      Check(!Truthy(role) || SelfAssignable(role.value), InvalidRole),
      Check(email.None? || !EmailTaken(db.users, NormalizeEmail(email.value)), EmailInUse) ]
  }

  /** `role || "employee"`. */
  function RequestedRole(role: Option<string>): Role
  {
    if Truthy(role) && ParseRole(role.value).Some? then ParseRole(role.value).value else DefaultRole
  }

  /** The document `User.create` builds; an undeclared `userStatus` is dropped. */
  function NewAccount(name: string, email: string, password: string, role: Role, schema: UserSchema): User
  {
    User(Trim(name), NormalizeEmail(email), password, role, None, true, KeepStatus(schema, Some(Pending)))
  }

  /**
   * Saving a built account: validation (a failure is a 500), the pre-save
   * hook's hash, and the insert (a duplicate email is a 500 too).
   */
  function Enrol(db: Db, doc: User, hash: string -> string): (Result<UserSummary, AuthError>, Db)
  {
    if !Validates(doc) then (Err(ServerError), db)
    else
      var stored := doc.(password := hash(doc.password));
      if EmailTaken(db.users, stored.email) then (Err(ServerError), db)
      else
        var id := UserInsert(db, stored).0.value;
        (Ok(UserSummary(id, stored.name, stored.email, stored.role, stored.userStatus)), UserInsert(db, stored).1)
  }

  function RegisterSpec(db: Db, name: Option<string>, email: Option<string>, password: Option<string>,
                        role: Option<string>, hash: string -> string, schema: UserSchema)
    : (Result<UserSummary, AuthError>, Db)
  {
    var checks := RegisterChecks(db, name, email, password, role);
    match FirstFailure(checks)
    case Some(e) => (Err(e), db)
    case None =>
      assert checks[0].passes;
      Enrol(db, NewAccount(name.value, email.value, password.value, RequestedRole(role), schema), hash)
  }

  /**
   * `register`'s refusals in order: a missing field (400), then a role
   * other than employee or manager (400), so that nobody registers as an
   * admin, then an email in use (409); a refusal changes nothing.
   */
  lemma RegisterRefusals(db: Db, name: Option<string>, email: Option<string>, password: Option<string>,
                         role: Option<string>, hash: string -> string, schema: UserSchema)
    ensures var (reply, db') := RegisterSpec(db, name, email, password, role, hash, schema);
      && (reply == Err(MissingFields) <==> !Truthy(name) || !Truthy(email) || !Truthy(password))
      && (reply == Err(InvalidRole) <==>
            Truthy(name) && Truthy(email) && Truthy(password) && Truthy(role) && !SelfAssignable(role.value))
      && (reply == Err(EmailInUse) <==>
            Truthy(name) && Truthy(email) && Truthy(password) && (!Truthy(role) || SelfAssignable(role.value))
            && EmailTaken(db.users, NormalizeEmail(email.value)))
      && (reply.Err? ==> db' == db)
  {
    var checks := RegisterChecks(db, name, email, password, role);
    if !checks[0].passes {
      FirstFailureIsFirst(checks, 0);
    } else if !checks[1].passes {
      FirstFailureIsFirst(checks, 1);
    } else if !checks[2].passes {
      FirstFailureIsFirst(checks, 2);
    }
  }

  /**
   * A request that passes the guards fails (500) only when the schema's
   * validators refuse the built account: the insert cannot hit the unique
   * index, because the guard looked the email up in the normalised form the
   * setters store. A successful registration adds exactly one user under a
   * fresh id: an employee unless a manager was asked for, never an admin,
   * reporting to nobody, with the normalised email and the hashed password;
   * the reply echoes that user.
   */
  lemma RegisterCreates(db: Db, name: Option<string>, email: Option<string>, password: Option<string>,
                        role: Option<string>, hash: string -> string, schema: UserSchema)
    ensures var (reply, db') := RegisterSpec(db, name, email, password, role, hash, schema);
      && (reply == Err(ServerError) <==>
            && Truthy(name) && Truthy(email) && Truthy(password) && (!Truthy(role) || SelfAssignable(role.value))
            && !EmailTaken(db.users, NormalizeEmail(email.value))
            && !Validates(NewAccount(name.value, email.value, password.value, RequestedRole(role), schema)))
      && (reply.Ok? ==>
        && Truthy(name) && Truthy(email) && Truthy(password)
        && reply.value.id == db.nextId
        && db' == db.(users := db.users[db.nextId := db'.users[db.nextId]], nextId := db.nextId + 1)
        && var u := db'.users[db.nextId];
        && u.role != Admin
        && (u.role == Manager <==> role == Some("manager"))
        && u.managerId == None
        && u.email == NormalizeEmail(email.value) && u.name == Trim(name.value) && ValidatesLoaded(u)
        && u.password == hash(password.value) && |password.value| >= MinPasswordLength
        && u.userStatus == KeepStatus(schema, Some(Pending))
        && reply.value == UserSummary(db.nextId, u.name, u.email, u.role, u.userStatus))
  {
    RegisterRefusals(db, name, email, password, role, hash, schema);
  }

  /**
   * As written, the `userStatus: "pending"` the handler passes is dropped:
   * the stored user has none and the reply's `userStatus` is undefined.
   */
  lemma RegisterDropsStatus(db: Db, name: Option<string>, email: Option<string>, password: Option<string>,
                            role: Option<string>, hash: string -> string)
    ensures var (reply, db') := RegisterSpec(db, name, email, password, role, hash, AsDeclared);
      reply.Ok? ==> reply.value.userStatus == None && db'.users[reply.value.id].userStatus == None
  {
  }

  /** `register` on the store, with the schema as declared. */
  method Register(db: Store, name: Option<string>, email: Option<string>, password: Option<string>,
                  role: Option<string>, hash: string -> string)
    returns (reply: Result<UserSummary, AuthError>)
    modifies db
    ensures (reply, db.State()) == RegisterSpec(old(db.State()), name, email, password, role, hash, AsDeclared)
  {
    RegisterRefusals(db.State(), name, email, password, role, hash, AsDeclared);
    if !Truthy(name) || !Truthy(email) || !Truthy(password) {
      return Err(MissingFields);
    }
    if Truthy(role) && !SelfAssignable(role.value) {
      return Err(InvalidRole);
    }
    var lookup := NormalizeEmail(email.value);
    if exists id :: id in db.users && db.users[id].email == lookup {
      return Err(EmailInUse);
    }
    // The schema has no `userStatus` path, so the value the handler passes is dropped.
    var user := new UserDocument(name.value, email.value, password.value, RequestedRole(role));
    if !Validates(user.Record()) {
      return Err(ServerError);
    }
    user.PreSave(hash);
    var inserted := db.InsertUser(user.Record());
    match inserted
    case Err(_) =>
      return Err(ServerError);
    case Ok(id) =>
      reply := Ok(UserSummary(id, user.name, user.email, user.role, user.userStatus));
  }
}

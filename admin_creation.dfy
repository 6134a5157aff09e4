/**
 * Creating the first administrator: nothing happens when an admin already
 * exists; otherwise one admin is created with a trimmed name and a
 * lower-cased, trimmed email. Validation and duplicate-key failures propagate
 * to the caller as errors.
 */
module AdminCreation {
  import opened Common
  import opened UserModel
  import opened Database

  /** Why `createAdmin` throws. */
  datatype CreateAdminError = ValidationFailed | DuplicateEmail

  /** `{ created, admin }`: the created admin's id and stored record, or null. */
  datatype Outcome = Outcome(created: bool, admin: Option<(Id, User)>)

  /** `User.exists({ role: "admin" })`. */
  predicate AdminExists(users: map<Id, User>)
  {
    exists id :: id in users && users[id].role == Admin
  }

  function CreateAdminSpec(db: Db, name: string, email: string, password: string, hash: string -> string)
    : (Result<Outcome, CreateAdminError>, Db)
  {
    var normalizedEmail := NormalizeEmail(email);
    if AdminExists(db.users) then (Ok(Outcome(false, None)), db)
    else
      // The schema's setters run again on the values passed in.
      var doc := User(Trim(Trim(name)), NormalizeEmail(normalizedEmail), password, Admin, None, true, None);
      if !Validates(doc) then (Err(ValidationFailed), db)
      else if EmailTaken(db.users, doc.email) then (Err(DuplicateEmail), db)
      else
        var stored := doc.(password := hash(password));
        (Ok(Outcome(true, Some((db.nextId, stored)))), UserInsert(db, stored).1)
  }

  /**
   * When an admin exists the reply is `{ created: false, admin: null }` and
   * nothing is stored. Otherwise exactly one user is inserted, an admin with
   * the trimmed name, the lower-cased and trimmed email and the hashed
   * password, unless the name or email trims to nothing or the password is
   * shorter than six characters (a validation error), or the email is taken.
   */
  lemma CreateAdminContract(db: Db, name: string, email: string, password: string, hash: string -> string)
    ensures var (reply, db') := CreateAdminSpec(db, name, email, password, hash);
      && (AdminExists(db.users) ==> reply == Ok(Outcome(false, None)) && db' == db)
      && (reply.Err? ==> db' == db)
      && (!AdminExists(db.users) ==>
            && (reply == Err(ValidationFailed) <==>
                  Trim(name) == "" || NormalizeEmail(email) == "" || |password| < MinPasswordLength)
            && (reply == Err(DuplicateEmail) <==>
                  Trim(name) != "" && NormalizeEmail(email) != "" && |password| >= MinPasswordLength
                  && EmailTaken(db.users, NormalizeEmail(email)))
            && (reply.Ok? ==>
                  var admin := User(Trim(name), NormalizeEmail(email), hash(password), Admin, None, true, None);
                  && reply.value == Outcome(true, Some((db.nextId, admin)))
                  && db' == db.(users := db.users[db.nextId := admin], nextId := db.nextId + 1)))
  {
    TrimIdempotent(name);
    NormalizeEmailIdempotent(email);
  }

  /**
   * Two consecutive calls create at most one admin: after a successful
   * first call an admin exists, so the second reports `created: false` and
   * changes nothing, whatever its arguments.
   */
  lemma CreateAdminTwice(db: Db, name: string, email: string, password: string,
                         name2: string, email2: string, password2: string, hash: string -> string)
    ensures var (first, db1) := CreateAdminSpec(db, name, email, password, hash);
      var (second, db2) := CreateAdminSpec(db1, name2, email2, password2, hash);
      first.Ok? ==> second == Ok(Outcome(false, None)) && db2 == db1 && AdminExists(db1.users)
  {
    CreateAdminContract(db, name, email, password, hash);
    var (first, db1) := CreateAdminSpec(db, name, email, password, hash);
    if first.Ok? && first.value.created {
      assert db1.users[db.nextId].role == Admin;
    }
  }

  /** `createAdmin` on the store. */
  method CreateAdmin(db: Store, name: string, email: string, password: string, hash: string -> string)
    returns (reply: Result<Outcome, CreateAdminError>)
    modifies db
    ensures (reply, db.State()) == CreateAdminSpec(old(db.State()), name, email, password, hash)
  {
    var normalizedEmail := Trim(ToLower(email));
    if exists id :: id in db.users && db.users[id].role == Admin {
      return Ok(Outcome(false, None));
    }
    var admin := new UserDocument(Trim(name), normalizedEmail, password, Admin);
    if !Validates(admin.Record()) {
      return Err(ValidationFailed);
    }
    admin.PreSave(hash);
    var inserted := db.InsertUser(admin.Record());
    match inserted
    case Err(_) =>
      return Err(DuplicateEmail);
    case Ok(id) =>
      return Ok(Outcome(true, Some((id, admin.Record()))));
  }
}

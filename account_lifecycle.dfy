/**
 * The account handlers over time: self-registration, approval by an
 * administrator, and the creation of the first administrator. Whatever the
 * order of requests, the store keeps at most one admin, no two users share
 * an email, every stored email is already normalised, and every id has been
 * issued.
 */
module AccountLifecycle {
  import opened Common
  import opened UserModel
  import opened Database
  import AuthController
  import AdminController
  import AdminCreation

  datatype AccountRequest =
    | RegisterRequest(name: Option<string>, email: Option<string>, password: Option<string>, role: Option<string>)
    | ApproveUserRequest(userId: Id)
    | CreateAdminRequest(adminName: string, adminEmail: string, adminPassword: string)

  /** The store after one request. */
  function Handle(db: Db, req: AccountRequest, hash: string -> string, schema: UserSchema): Db
  {
    match req
    case RegisterRequest(name, email, password, role) =>
      AuthController.RegisterSpec(db, name, email, password, role, hash, schema).1
    case ApproveUserRequest(userId) =>
      AdminController.ApproveUserSpec(db, userId, schema).1
    case CreateAdminRequest(name, email, password) =>
      AdminCreation.CreateAdminSpec(db, name, email, password, hash).1
  }

  function Run(db: Db, reqs: seq<AccountRequest>, hash: string -> string, schema: UserSchema): Db
    decreases |reqs|
  {
    if reqs == [] then db else Run(Handle(db, reqs[0], hash, schema), reqs[1..], hash, schema)
  }

  predicate AtMostOneAdmin(users: map<Id, User>)
  {
    forall a, b :: a in users && b in users && users[a].role == Admin && users[b].role == Admin ==> a == b
  }

  /** What the unique index on `email` guarantees. */
  predicate UniqueEmails(users: map<Id, User>)
  {
    forall a, b :: a in users && b in users && users[a].email == users[b].email ==> a == b
  }

  /** Every stored email is as the schema's setters leave it. */
  predicate EmailsNormalised(users: map<Id, User>)
  {
    forall id :: id in users ==> NormalizeEmail(users[id].email) == users[id].email
  }

  /** Every stored user has the name and email a reloaded document is validated on. */
  predicate StoredUsersValidate(users: map<Id, User>)
  {
    forall id :: id in users ==> ValidatesLoaded(users[id])
  }

  predicate Sound(db: Db)
  {
    && IdsIssued(db) && AtMostOneAdmin(db.users) && UniqueEmails(db.users) && EmailsNormalised(db.users)
    && StoredUsersValidate(db.users)
  }

  /** Adding a user under a fresh id keeps the store sound when it is not a second admin. */
  lemma AddUserKeepsSound(db: Db, u: User)
    requires Sound(db) && !EmailTaken(db.users, u.email)
    requires NormalizeEmail(u.email) == u.email && ValidatesLoaded(u)
    requires u.role == Admin ==> forall id :: id in db.users ==> db.users[id].role != Admin
    ensures Sound(db.(users := db.users[db.nextId := u], nextId := db.nextId + 1))
  {
  }

  /** Registration keeps the store sound. */
  lemma RegisterKeepsSound(db: Db, name: Option<string>, email: Option<string>, password: Option<string>,
                           role: Option<string>, hash: string -> string, schema: UserSchema)
    requires Sound(db)
    ensures Sound(AuthController.RegisterSpec(db, name, email, password, role, hash, schema).1)
  {
    AuthController.RegisterRefusals(db, name, email, password, role, hash, schema);
    AuthController.RegisterCreates(db, name, email, password, role, hash, schema);
    var (reply, db') := AuthController.RegisterSpec(db, name, email, password, role, hash, schema);
    if reply.Ok? {
      var u := db'.users[db.nextId];
      NormalizeEmailIdempotent(email.value);
      AddUserKeepsSound(db, u);
    }
  }

  /** Approval keeps the store sound: it changes no role, name or email. */
  lemma ApproveUserKeepsSound(db: Db, userId: Id, schema: UserSchema)
    requires Sound(db)
    ensures Sound(AdminController.ApproveUserSpec(db, userId, schema).1)
  {
  }

  /**
   * On a sound store the re-validation in `approveUser`'s save never fails:
   * every user that passes the guards is approved.
   */
  lemma ApproveUserSavesOnSound(db: Db, userId: Id, schema: UserSchema)
    requires Sound(db)
    ensures var reply := AdminController.ApproveUserSpec(db, userId, schema).0;
      && reply != Err(AdminController.ServerError)
      && (reply.Ok? <==>
            userId in db.users && db.users[userId].role != Admin
            && ReadStatus(schema, db.users[userId]) != Some(Approved))
  {
    AdminController.ApproveUserContract(db, userId, schema);
  }

  /** Creating an admin keeps the store sound: it adds one only when there is none. */
  lemma CreateAdminKeepsSound(db: Db, name: string, email: string, password: string, hash: string -> string)
    requires Sound(db)
    ensures Sound(AdminCreation.CreateAdminSpec(db, name, email, password, hash).1)
  {
    AdminCreation.CreateAdminContract(db, name, email, password, hash);
    var (reply, db') := AdminCreation.CreateAdminSpec(db, name, email, password, hash);
    if reply.Ok? && reply.value.created {
      NormalizeEmailIdempotent(email);
      AddUserKeepsSound(db, db'.users[db.nextId]);
    }
  }

  lemma HandleKeepsSound(db: Db, req: AccountRequest, hash: string -> string, schema: UserSchema)
    requires Sound(db)
    ensures Sound(Handle(db, req, hash, schema))
  {
    match req
    case RegisterRequest(name, email, password, role) =>
      RegisterKeepsSound(db, name, email, password, role, hash, schema);
    case ApproveUserRequest(userId) =>
      ApproveUserKeepsSound(db, userId, schema);
    case CreateAdminRequest(name, email, password) =>
      CreateAdminKeepsSound(db, name, email, password, hash);
  }

  /**
   * From a sound store (an empty one, say), any sequence of account
   * requests leaves at most one admin, unique and normalised emails, and
   * issued ids.
   */
  lemma {:induction false} RunKeepsSound(db: Db, reqs: seq<AccountRequest>, hash: string -> string, schema: UserSchema)
    requires Sound(db)
    ensures Sound(Run(db, reqs, hash, schema))
    decreases |reqs|
  {
    if reqs != [] {
      HandleKeepsSound(db, reqs[0], hash, schema);
      RunKeepsSound(Handle(db, reqs[0], hash, schema), reqs[1..], hash, schema);
    }
  }

  /** The empty store is sound. */
  lemma EmptyIsSound()
    ensures Sound(Db(map[], map[], map[], 0))
  {
  }
}

/**
 * The administrator's user management: listing every account that is not an
 * admin, and approving a pending registration.
 *
 * `approveUser` reads and writes `userStatus`, a path the user schema does not
 * declare. As written, the read gives `undefined`, so the "already approved"
 * guard never fires, and the write is dropped on save, so nothing is stored;
 * the reply still shows the value assigned in memory. `UserSchema` selects
 * between that behaviour and the one the handler was written for.
 */
module AdminController {
  import opened Common
  import opened UserModel
  import opened Database

  /**
   * `User.find({ role: { $ne: "admin" } }).select("-password")`: every
   * non-admin account and no admin, each shown as stored except for the
   * password, which the listing never carries.
   */
  function GetUsers(db: Db): (r: map<Id, PublicUser>)
    ensures forall id :: id in r <==> id in db.users && db.users[id].role != Admin
    ensures forall id :: id in r ==>
              var u := db.users[id];
              r[id].name == u.name && r[id].email == u.email && r[id].role == u.role && r[id].role != Admin
              && r[id].managerId == u.managerId && r[id].isActive == u.isActive && r[id].userStatus == u.userStatus
  {
    map id | id in db.users && db.users[id].role != Admin :: Public(db.users[id])
  }

  datatype AdminError = UserNotFound | AdminNeedsNoApproval | AlreadyApproved | ServerError

  function HttpStatus(e: AdminError): nat
  {
    match e
    case UserNotFound => 404
    case AdminNeedsNoApproval | AlreadyApproved => 400
    case ServerError => 500
  }

  /** The guards of `approveUser`, in order. */
  function ApproveUserChecks(db: Db, userId: Id, schema: UserSchema): seq<Check<AdminError>>
  {
    [ Check(userId in db.users, UserNotFound),
      Check(userId !in db.users || db.users[userId].role != Admin, AdminNeedsNoApproval),
      Check(userId !in db.users || ReadStatus(schema, db.users[userId]) != Some(Approved), AlreadyApproved) ]
  }

  /** The stored user after `user.userStatus = "approved"` and `save()`. */
  function AfterApproval(schema: UserSchema, u: User): User
  {
    match schema
    case AsDeclared => u
    case WithUserStatus => u.(userStatus := Some(Approved))
  }

  function ApproveUserSpec(db: Db, userId: Id, schema: UserSchema): (Result<UserSummary, AdminError>, Db)
  {
    match FirstFailure(ApproveUserChecks(db, userId, schema))
    case Some(e) => (Err(e), db)
    case None =>
      var u := db.users[userId];
      if !ValidatesLoaded(u) then (Err(ServerError), db)
      else
        (Ok(UserSummary(userId, u.name, u.email, u.role, Some(Approved))),
         db.(users := db.users[userId := AfterApproval(schema, u)]))
  }

  /**
   * `approveUser`: an unknown id is a 404, an admin a 400, a user read as
   * already approved a 400, and a refusal changes nothing. A user passing
   * the guards is refused (500) exactly when `save()` finds its stored name
   * or email empty, and approved otherwise. On success only that user's
   * `userStatus` may change: its name, email, role, manager and password stay
   * as they were, no user is added or removed, and the reply echoes the
   * stored id, name, email and role with the status approved.
   */
  lemma ApproveUserContract(db: Db, userId: Id, schema: UserSchema)
    ensures var (reply, db') := ApproveUserSpec(db, userId, schema);
      && (reply == Err(UserNotFound) <==> userId !in db.users)
      && (reply == Err(AdminNeedsNoApproval) <==> userId in db.users && db.users[userId].role == Admin)
      && (reply == Err(AlreadyApproved) <==>
            userId in db.users && db.users[userId].role != Admin
            && ReadStatus(schema, db.users[userId]) == Some(Approved))
      && (reply == Err(ServerError) <==>
            userId in db.users && db.users[userId].role != Admin
            && ReadStatus(schema, db.users[userId]) != Some(Approved)
            && !ValidatesLoaded(db.users[userId]))
      && (reply.Ok? <==>
            userId in db.users && db.users[userId].role != Admin
            && ReadStatus(schema, db.users[userId]) != Some(Approved)
            && ValidatesLoaded(db.users[userId]))
      && (reply.Err? ==> db' == db)
      && (reply.Ok? ==>
            var u := db.users[userId];
            && db'.users.Keys == db.users.Keys
            && db' == db.(users := db'.users)
            && (forall id :: id in db.users && id != userId ==> db'.users[id] == db.users[id])
            && db'.users[userId] == u.(userStatus := db'.users[userId].userStatus)
            && (schema == AsDeclared ==> db'.users[userId] == u)
            && (schema == WithUserStatus ==> db'.users[userId].userStatus == Some(Approved))
            && reply.value == UserSummary(userId, u.name, u.email, u.role, Some(Approved))
            && u.role != Admin)
  {
    var checks := ApproveUserChecks(db, userId, schema);
    if !checks[0].passes {
      FirstFailureIsFirst(checks, 0);
    } else if !checks[1].passes {
      FirstFailureIsFirst(checks, 1);
    } else if !checks[2].passes {
      FirstFailureIsFirst(checks, 2);
    }
  }

  /**
   * As written, approval stores nothing, so approving the same user again
   * gives the same reply instead of answering "already approved": a user
   * whose stored name and email validate is approved both times.
   */
  lemma ApproveUserRepeatsAsWritten(db: Db, userId: Id)
    requires userId in db.users && db.users[userId].role != Admin
    ensures var (first, db1) := ApproveUserSpec(db, userId, AsDeclared);
      var (second, db2) := ApproveUserSpec(db1, userId, AsDeclared);
      && (first.Ok? <==> ValidatesLoaded(db.users[userId]))
      && db1 == db && second == first && db2 == db
  {
  }

  /**
   * With `userStatus` declared, approval is stored, and approving the same
   * user again answers "already approved" and changes nothing.
   */
  lemma ApproveUserOnceWithStatus(db: Db, userId: Id)
    requires userId in db.users && db.users[userId].role != Admin
    requires db.users[userId].userStatus != Some(Approved) && ValidatesLoaded(db.users[userId])
    ensures var (first, db1) := ApproveUserSpec(db, userId, WithUserStatus);
      var (second, db2) := ApproveUserSpec(db1, userId, WithUserStatus);
      && first.Ok? && db1.users[userId].userStatus == Some(Approved)
      && second == Err(AlreadyApproved) && db2 == db1
  {
    ApproveUserContract(db, userId, WithUserStatus);
    var db1 := ApproveUserSpec(db, userId, WithUserStatus).1;
    ApproveUserContract(db1, userId, WithUserStatus);
  }

  /**
   * `approveUser` on the store, with the schema as declared. The save
   * validates the document first (a failure is a 500); no path is modified,
   * so the hook does not hash anything.
   */
  method ApproveUser(db: Store, userId: Id, hash: string -> string) returns (reply: Result<UserSummary, AdminError>)
    modifies db
    ensures (reply, db.State()) == ApproveUserSpec(old(db.State()), userId, AsDeclared)
  {
    ApproveUserContract(db.State(), userId, AsDeclared);
    if userId !in db.users {
      return Err(UserNotFound);
    }
    var user := new UserDocument.Load(db.users[userId]);
    if user.role == Admin {
      return Err(AdminNeedsNoApproval);
    }
    if ReadStatus(AsDeclared, user.Record()) == Some(Approved) {
      return Err(AlreadyApproved);
    }
    // `save()` validates the loaded paths before its pre-save hook runs.
    if !ValidatesLoaded(user.Record()) {
      return Err(ServerError);
    }
    // The assignment lands on an undeclared path: it shows in the reply only.
    var shown := Some(Approved);
    user.PreSave(hash);
    db.users := db.users[userId := user.Record()];
    reply := Ok(UserSummary(userId, user.name, user.email, user.role, shown));
  }
}

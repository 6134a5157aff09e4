/**
 * The database the handlers share: the users, leaves and reimbursements
 * collections, keyed by document id, and the source of fresh ids. `Db` is its
 * value, against which every handler is specified; `Store` is the mutable
 * object the handlers update.
 */
module Database {
  import opened Common
  import opened UserModel
  import opened LeaveModel
  import opened ReimbursementModel

  datatype Db = Db(
    users: map<Id, User>,
    leaves: map<Id, Leave>,
    reimbursements: map<Id, Reimbursement>,
    nextId: Id)

  /** Every stored id has been handed out, so `nextId` is fresh. */
  predicate IdsIssued(db: Db)
  {
    (forall id :: id in db.users ==> id < db.nextId)
    && (forall id :: id in db.leaves ==> id < db.nextId)
    && (forall id :: id in db.reimbursements ==> id < db.nextId)
  }

  /** The unique index on the users' email. */
  predicate EmailTaken(users: map<Id, User>, email: string)
  {
    exists id :: id in users && users[id].email == email
  }

  /**
   * The authenticated caller (`req.user`) as the authentication middleware
   * loaded it: its id and its reporting manager.
   */
  datatype Principal = Principal(id: Id, managerId: Option<Id>)

  /** Why the database refuses an insert. */
  datatype DbError = DuplicateKey

  /**
   * Inserts a user under a fresh id, unless the unique email index already
   * holds its email.
   */
  function UserInsert(db: Db, u: User): (r: (Result<Id, DbError>, Db))
    ensures r.0.Err? <==> EmailTaken(db.users, u.email)
    ensures r.0.Err? ==> r.1 == db
    ensures r.0.Ok? ==>
              r.0.value == db.nextId
              && r.1 == db.(users := db.users[db.nextId := u], nextId := db.nextId + 1)
  {
    if EmailTaken(db.users, u.email) then (Err(DuplicateKey), db)
    else (Ok(db.nextId), db.(users := db.users[db.nextId := u], nextId := db.nextId + 1))
  }

  class Store {
    var users: map<Id, User>
    var leaves: map<Id, Leave>
    var reimbursements: map<Id, Reimbursement>
    var nextId: Id

    function State(): Db
      reads this
    {
      Db(users, leaves, reimbursements, nextId)
    }

    constructor ()
      ensures State() == Db(map[], map[], map[], 0)
    {
      users, leaves, reimbursements, nextId := map[], map[], map[], 0;
    }

    /** `collection.insertOne` on the users, with the unique email index. */
    method InsertUser(u: User) returns (r: Result<Id, DbError>)
      modifies this
      ensures (r, State()) == UserInsert(old(State()), u)
    {
      if exists id :: id in users && users[id].email == u.email {
        return Err(DuplicateKey);
      }
      users := users[nextId := u];
      r := Ok(nextId);
      nextId := nextId + 1;
    }

    /** `collection.insertOne` on the leaves. */
    method InsertLeave(l: Leave) returns (id: Id)
      modifies this
      ensures id == old(nextId)
      ensures State() == old(State()).(leaves := old(leaves)[id := l], nextId := id + 1)
    {
      id := nextId;
      leaves := leaves[id := l];
      nextId := nextId + 1;
    }

    /** `collection.insertOne` on the reimbursements. */
    method InsertReimbursement(r: Reimbursement) returns (id: Id)
      modifies this
      ensures id == old(nextId)
      ensures State() == old(State()).(reimbursements := old(reimbursements)[id := r], nextId := id + 1)
    {
      id := nextId;
      reimbursements := reimbursements[id := r];
      nextId := nextId + 1;
    }
  }
}

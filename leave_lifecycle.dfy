/**
 * The leave lifecycle across requests. `Handle` dispatches one request to
 * its handler, `Run` folds a sequence of requests, and the lemmas state what
 * holds whatever the requests: the only status moves are pending to
 * approved, pending to rejected and approved to cancelled; each move appends
 * exactly one history entry naming it; at most one leave changes per request;
 * rejected and cancelled leaves never change again. Each property is proved
 * for the schema as declared and for the one with an optional approver.
 */
module LeaveLifecycle {
  import opened Common
  import opened LeaveModel
  import opened Database
  import opened LeaveController

  datatype LeaveRequest =
    | CreateRequest(me: Principal, leaveType: Option<string>, startDate: DateInput, endDate: DateInput,
                    reason: Option<string>)
    | ApproveRequest(caller: Id, leaveId: Id, note: Option<string>, now: Millis)
    | RejectRequest(caller: Id, leaveId: Id, rejectionReason: Option<string>, note: Option<string>, now: Millis)
    | CancelRequest(caller: Id, leaveId: Id, note: Option<string>, now: Millis)
    | DeleteRequest(caller: Id, leaveId: Id)

  /** The database after one request. */
  function Handle(db: Db, req: LeaveRequest, schema: LeaveSchema): Db
  {
    match req
    case CreateRequest(me, t, s, e, r) => CreateLeaveSpec(db, me, t, s, e, r, schema).1
    case ApproveRequest(c, id, n, now) => ApproveLeaveSpec(db, c, id, n, now, schema).1
    case RejectRequest(c, id, r, n, now) => RejectLeaveSpec(db, c, id, r, n, now, schema).1
    case CancelRequest(c, id, n, now) => CancelLeaveSpec(db, c, id, n, now, schema).1
    case DeleteRequest(c, id) => DeleteLeaveSpec(db, c, id).1
  }

  /** The database after a sequence of requests, handled one at a time. */
  function Run(db: Db, reqs: seq<LeaveRequest>, schema: LeaveSchema): Db
    decreases |reqs|
  {
    if reqs == [] then db else Run(Handle(db, reqs[0], schema), reqs[1..], schema)
  }

  /** The status moves the handlers make. */
  predicate Step(from: LeaveStatus, to: LeaveStatus)
  {
    (from == Pending && to == Approved)
    || (from == Pending && to == Rejected)
    || (from == Approved && to == Cancelled)
  }

  /** Zero or more steps. */
  predicate Reaches(from: LeaveStatus, to: LeaveStatus)
  {
    from == to || Step(from, to) || (from == Pending && to == Cancelled)
  }

  predicate Terminal(s: LeaveStatus)
  {
    s == Rejected || s == Cancelled
  }

  /** The history action that records a move into `s`. */
  function ActionInto(s: LeaveStatus): Action
  {
    match s
    case Approved => ApprovedAction
    case Rejected => RejectedAction
    case _ => CancelledAction
  }

  /**
   * What one request may do to a leave it keeps: nothing, or one status
   * step with exactly one history entry appended that names the step, the
   * requester staying the same.
   */
  predicate Evolves(before: Leave, after: Leave)
  {
    before == after
    || (&& Step(before.status, after.status)
        && after.requesterId == before.requesterId
        && |after.approvalHistory| == |before.approvalHistory| + 1
        && after.approvalHistory[..|before.approvalHistory|] == before.approvalHistory
        && after.approvalHistory[|before.approvalHistory|].action == ActionInto(after.status))
  }

  /** Every leave other than `target` is kept as it is, or stays absent. */
  ghost predicate OnlyTouches(db: Db, db': Db, target: Id)
  {
    forall id :: id != target ==>
      (id in db.leaves <==> id in db'.leaves) && (id in db.leaves ==> db'.leaves[id] == db.leaves[id])
  }

  /** The one leave a request may touch: the named one, or the fresh id for a new leave. */
  function Target(db: Db, req: LeaveRequest): Id
  {
    if req.CreateRequest? then db.nextId else req.leaveId
  }

  /**
   * The shape of one request's effect: users are untouched, at most
   * `target` changes among the leaves, a kept leave evolves by at most one
   * step, a removed leave was pending, and a new leave is pending with an
   * empty history.
   */
  ghost predicate StepShape(db: Db, db': Db, target: Id)
  {
    && IdsIssued(db')
    && db'.users == db.users
    && OnlyTouches(db, db', target)
    && (forall id :: id in db.leaves && id in db'.leaves ==> Evolves(db.leaves[id], db'.leaves[id]))
    && (forall id :: id in db.leaves && id !in db'.leaves ==> db.leaves[id].status == Pending)
    && (forall id :: id in db'.leaves && id !in db.leaves ==>
          db'.leaves[id].status == Pending && db'.leaves[id].approvalHistory == [])
  }

  lemma CreateEvolves(db: Db, me: Principal, t: Option<string>, s: DateInput, e: DateInput, r: Option<string>,
                      schema: LeaveSchema)
    requires IdsIssued(db)
    ensures StepShape(db, CreateLeaveSpec(db, me, t, s, e, r, schema).1, db.nextId)
  {
    CreateLeaveRefusals(db, me, t, s, e, r, schema);
    assert db.nextId !in db.leaves;
  }

  lemma ApproveEvolves(db: Db, c: Id, id: Id, n: Option<string>, now: Millis, schema: LeaveSchema)
    requires IdsIssued(db)
    ensures StepShape(db, ApproveLeaveSpec(db, c, id, n, now, schema).1, id)
  {
    ApproveLeaveContract(db, c, id, n, now, schema);
  }

  lemma RejectEvolves(db: Db, c: Id, id: Id, r: Option<string>, n: Option<string>, now: Millis, schema: LeaveSchema)
    requires IdsIssued(db)
    ensures StepShape(db, RejectLeaveSpec(db, c, id, r, n, now, schema).1, id)
  {
    RejectLeaveContract(db, c, id, r, n, now, schema);
  }

  lemma CancelEvolves(db: Db, c: Id, id: Id, n: Option<string>, now: Millis, schema: LeaveSchema)
    requires IdsIssued(db)
    ensures StepShape(db, CancelLeaveSpec(db, c, id, n, now, schema).1, id)
  {
    CancelLeaveContract(db, c, id, n, now, schema);
  }

  lemma DeleteEvolves(db: Db, c: Id, id: Id)
    requires IdsIssued(db)
    ensures StepShape(db, DeleteLeaveSpec(db, c, id).1, id)
  {
    DeleteLeaveContract(db, c, id);
  }

  /**
   * One request, whatever it is: users are untouched, at most its target
   * leave changes, a kept leave evolves by at most one step, a removed leave
   * was pending, and a new leave is pending with an empty history.
   */
  lemma HandleEvolves(db: Db, req: LeaveRequest, schema: LeaveSchema)
    requires IdsIssued(db)
    ensures var db' := Handle(db, req, schema);
      && IdsIssued(db')
      && db'.users == db.users
      && OnlyTouches(db, db', Target(db, req))
      && (forall id :: id in db.leaves && id in db'.leaves ==> Evolves(db.leaves[id], db'.leaves[id]))
      && (forall id :: id in db.leaves && id !in db'.leaves ==> db.leaves[id].status == Pending)
      && (forall id :: id in db'.leaves && id !in db.leaves ==>
            db'.leaves[id].status == Pending && db'.leaves[id].approvalHistory == [])
  {
    match req
    case CreateRequest(me, t, s, e, r) =>
      CreateEvolves(db, me, t, s, e, r, schema);
    case ApproveRequest(c, id, n, now) =>
      ApproveEvolves(db, c, id, n, now, schema);
    case RejectRequest(c, id, r, n, now) =>
      RejectEvolves(db, c, id, r, n, now, schema);
    case CancelRequest(c, id, n, now) =>
      CancelEvolves(db, c, id, n, now, schema);
    case DeleteRequest(c, id) =>
      DeleteEvolves(db, c, id);
  }

  /**
   * Over any sequence of requests, a leave that survives moved only forward
   * along the steps, and ids stay fresh.
   */
  lemma {:induction false} RunOnlyMovesForward(db: Db, reqs: seq<LeaveRequest>, schema: LeaveSchema, id: Id)
    requires IdsIssued(db) && id in db.leaves
    ensures IdsIssued(Run(db, reqs, schema))
    ensures id in Run(db, reqs, schema).leaves ==>
              Reaches(db.leaves[id].status, Run(db, reqs, schema).leaves[id].status)
    decreases |reqs|
  {
    if reqs != [] {
      var db1 := Handle(db, reqs[0], schema);
      HandleEvolves(db, reqs[0], schema);
      if id in db1.leaves {
        RunOnlyMovesForward(db1, reqs[1..], schema, id);
      } else {
        RunKeepsIdsIssued(db1, reqs[1..], schema);
        RunNeverRevives(db1, reqs[1..], schema, id);
      }
    }
  }

  lemma {:induction false} RunKeepsIdsIssued(db: Db, reqs: seq<LeaveRequest>, schema: LeaveSchema)
    requires IdsIssued(db)
    ensures IdsIssued(Run(db, reqs, schema))
    decreases |reqs|
  {
    if reqs != [] {
      HandleEvolves(db, reqs[0], schema);
      RunKeepsIdsIssued(Handle(db, reqs[0], schema), reqs[1..], schema);
    }
  }

  /** A removed leave's id is never reused: only fresh ids are created. */
  lemma {:induction false} RunNeverRevives(db: Db, reqs: seq<LeaveRequest>, schema: LeaveSchema, id: Id)
    requires IdsIssued(db) && id < db.nextId && id !in db.leaves
    ensures id !in Run(db, reqs, schema).leaves
    decreases |reqs|
  {
    if reqs != [] {
      var db1 := Handle(db, reqs[0], schema);
      HandleEvolves(db, reqs[0], schema);
      RunNeverRevives(db1, reqs[1..], schema, id);
    }
  }

  /** Rejected and cancelled leaves are final: no sequence of requests changes or removes them. */
  lemma {:induction false} TerminalIsFinal(db: Db, reqs: seq<LeaveRequest>, schema: LeaveSchema, id: Id)
    requires IdsIssued(db) && id in db.leaves && Terminal(db.leaves[id].status)
    ensures id in Run(db, reqs, schema).leaves && Run(db, reqs, schema).leaves[id] == db.leaves[id]
    decreases |reqs|
  {
    if reqs != [] {
      var db1 := Handle(db, reqs[0], schema);
      HandleEvolves(db, reqs[0], schema);
      TerminalIsFinal(db1, reqs[1..], schema, id);
    }
  }

  /** The actions a leave's history holds for each status it can be in. */
  predicate HistoryMatchesStatus(l: Leave)
  {
    Actions(l.approvalHistory) ==
      match l.status
      case Pending => []
      case Approved => [ApprovedAction]
      case Rejected => [RejectedAction]
      case Cancelled => [ApprovedAction, CancelledAction]
  }

  predicate HistoriesMatch(db: Db)
  {
    forall id :: id in db.leaves ==> HistoryMatchesStatus(db.leaves[id])
  }

  /** An evolution step keeps a leave's history in line with its status. */
  lemma EvolvesKeepsHistory(before: Leave, after: Leave)
    requires Evolves(before, after) && HistoryMatchesStatus(before)
    ensures HistoryMatchesStatus(after)
  {
  }

  /**
   * Starting from histories that match their statuses, every sequence of
   * requests keeps them matching: a leave's history is exactly the record
   * of the moves that brought it to its status.
   */
  lemma {:induction false} RunKeepsHistoriesMatching(db: Db, reqs: seq<LeaveRequest>, schema: LeaveSchema)
    requires IdsIssued(db) && HistoriesMatch(db)
    ensures HistoriesMatch(Run(db, reqs, schema))
    decreases |reqs|
  {
    if reqs != [] {
      var db1 := Handle(db, reqs[0], schema);
      HandleEvolves(db, reqs[0], schema);
      forall id | id in db1.leaves ensures HistoryMatchesStatus(db1.leaves[id]) {
        if id in db.leaves {
          EvolvesKeepsHistory(db.leaves[id], db1.leaves[id]);
        }
      }
      RunKeepsHistoriesMatching(db1, reqs[1..], schema);
    }
  }
}

/**
 * The leave handlers. Each handler runs an ordered series of guards, and the
 * first one that fails decides the reply; only when every guard passes does
 * one leave change. Every handler is specified by a function over the
 * database value (`...Spec`), and the method that runs it on the store is
 * proved to agree with it. Handlers that only read are functions.
 */
module LeaveController {
  import opened Common
  import opened LeaveModel
  import opened Database

  datatype LeaveError =
    | NoManagerAssigned
    | MissingFields
    | InvalidDateFormat
    | EndBeforeStart
    | MissingRejectionReason
    | LeaveNotFound
    | NotAuthorised
    | NotPending
    | NotApproved
    | UserNotFound
    | NotInTeam
    | ServerError

  /** The HTTP status each refusal is answered with. */
  function HttpStatus(e: LeaveError): nat
  {
    match e
    case LeaveNotFound | UserNotFound => 404
    case NotAuthorised | NotInTeam => 403
    case ServerError => 500
    case _ => 400
  }

  /**
   * A date field of the request body: absent or falsy, present but not a
   * date (`new Date` gives NaN), or a date in milliseconds.
   */
  datatype DateInput = Missing | Unparseable | Date(ms: Millis)

  /** The user `id` exists and reports to `caller`. */
  predicate ReportsTo(users: map<Id, UserModel.User>, id: Id, caller: Id)
  {
    id in users && users[id].managerId == Some(caller)
  }

  // ---------------------------------------------------------------- createLeave

  /**
   * `Math.round((end - start) / DAY) + 1`. The day count is the nearest
   * whole number of days between the dates (halves round up), plus one.
   */
  function TotalDays(start: Millis, end: Millis): (days: int)
    requires start <= end
    ensures days >= 1
    ensures DayMs * (2 * (days - 1) - 1) <= 2 * (end - start) < DayMs * (2 * (days - 1) + 1)
  {
    (2 * (end - start) + DayMs) / (2 * DayMs) + 1
  }

  /** Dates a whole number `k` of days apart give `k + 1` days; equal dates give 1. */
  lemma TotalDaysWholeDays(start: Millis, k: nat)
    ensures TotalDays(start, start + k * DayMs) == k + 1
    ensures TotalDays(start, start) == 1
  {
  }

  function CreateLeaveChecks(me: Principal, leaveType: Option<string>, startDate: DateInput,
                             endDate: DateInput): seq<Check<LeaveError>>
  {
    [ Check(me.managerId.Some?, NoManagerAssigned),
      Check(Truthy(leaveType) && !startDate.Missing? && !endDate.Missing?, MissingFields),
      Check(!startDate.Unparseable? && !endDate.Unparseable?, InvalidDateFormat),
      Check(!(startDate.Date? && endDate.Date? && endDate.ms < startDate.ms), EndBeforeStart) ]
  }

  /** The leave `createLeave` builds from a request whose checks all pass. */
  function RequestedLeave(me: Principal, leaveType: Option<string>, startDate: DateInput,
                          endDate: DateInput, reason: Option<string>): Leave
    requires FirstFailure(CreateLeaveChecks(me, leaveType, startDate, endDate)).None?
  {
    var checks := CreateLeaveChecks(me, leaveType, startDate, endDate);
    assert checks[1].passes && checks[2].passes && checks[3].passes;
    NewLeave(me.id, leaveType.value, startDate.ms, endDate.ms,
             TotalDays(startDate.ms, endDate.ms), reason)
  }

  function CreateLeaveSpec(db: Db, me: Principal, leaveType: Option<string>, startDate: DateInput,
                           endDate: DateInput, reason: Option<string>, schema: LeaveSchema)
    : (Result<(Id, Leave), LeaveError>, Db)
  {
    match FirstFailure(CreateLeaveChecks(me, leaveType, startDate, endDate))
    case Some(e) => (Err(e), db)
    case None =>
      var l := RequestedLeave(me, leaveType, startDate, endDate, reason);
      if Validates(schema, l) then
        (Ok((db.nextId, l)), db.(leaves := db.leaves[db.nextId := l], nextId := db.nextId + 1))
      else
        (Err(ServerError), db)
  }

  /**
   * The order of `createLeave`'s refusals: no manager first, then a missing
   * field, then an unparseable date, then an end before the start; a refused
   * request changes nothing.
   */
  lemma CreateLeaveRefusals(db: Db, me: Principal, leaveType: Option<string>, startDate: DateInput,
                            endDate: DateInput, reason: Option<string>, schema: LeaveSchema)
    ensures var (reply, db') := CreateLeaveSpec(db, me, leaveType, startDate, endDate, reason, schema);
      && (reply == Err(NoManagerAssigned) <==> me.managerId.None?)
      && (reply == Err(MissingFields) <==>
            me.managerId.Some? && (!Truthy(leaveType) || startDate.Missing? || endDate.Missing?))
      && (reply == Err(InvalidDateFormat) <==>
            me.managerId.Some? && Truthy(leaveType) && !startDate.Missing? && !endDate.Missing?
            && (startDate.Unparseable? || endDate.Unparseable?))
      && (reply == Err(EndBeforeStart) <==>
            me.managerId.Some? && Truthy(leaveType) && startDate.Date? && endDate.Date?
            && endDate.ms < startDate.ms)
      && (reply.Err? ==> db' == db)
  {
    var checks := CreateLeaveChecks(me, leaveType, startDate, endDate);
    if !checks[0].passes {
      FirstFailureIsFirst(checks, 0);
    } else if !checks[1].passes {
      FirstFailureIsFirst(checks, 1);
    } else if !checks[2].passes {
      FirstFailureIsFirst(checks, 2);
    } else if !checks[3].passes {
      FirstFailureIsFirst(checks, 3);
    }
  }

  /**
   * A request that passes the checks yields a leave of the caller's, pending,
   * with no history, the submitted type and dates, the trimmed reason and the
   * inclusive day count; the store gains that one leave exactly when the
   * schema accepts it.
   */
  lemma CreateLeaveAccepted(db: Db, me: Principal, leaveType: Option<string>, startDate: DateInput,
                            endDate: DateInput, reason: Option<string>, schema: LeaveSchema)
    requires me.managerId.Some? && Truthy(leaveType) && startDate.Date? && endDate.Date?
    requires startDate.ms <= endDate.ms
    ensures var l := RequestedLeave(me, leaveType, startDate, endDate, reason);
      && l.requesterId == me.id && l.status == Pending && l.approvalHistory == []
      && l.approverId == None && l.leaveType == leaveType.value && l.reason == TrimmedOpt(reason)
      && l.rejectionReason == None && l.approvedAt == None && l.rejectedAt == None && l.cancelledAt == None
      && l.startDate == startDate.ms && l.endDate == endDate.ms
      && l.totalDays == TotalDays(startDate.ms, endDate.ms) && l.totalDays >= 1
      && (startDate.ms == endDate.ms ==> l.totalDays == 1)
      && CreateLeaveSpec(db, me, leaveType, startDate, endDate, reason, schema)
         == if Validates(schema, l)
            then (Ok((db.nextId, l)), db.(leaves := db.leaves[db.nextId := l], nextId := db.nextId + 1))
            else (Err(ServerError), db)
  {
  }

  /**
   * As written: the schema requires `approverId` and `createLeave` never sets
   * it, so every request that passes the handler's own checks is answered
   * 500 and nothing is stored.
   */
  lemma CreateLeaveNeverStores(db: Db, me: Principal, leaveType: Option<string>, startDate: DateInput,
                               endDate: DateInput, reason: Option<string>)
    ensures var (reply, db') := CreateLeaveSpec(db, me, leaveType, startDate, endDate, reason, ApproverRequired);
      reply.Err? && db' == db
  {
  }

  /**
   * With `approverId` optional, a request that passes the checks and names a
   * known leave type is stored as a new pending leave under a fresh id.
   */
  lemma CreateLeaveStoresWhenApproverOptional(db: Db, me: Principal, leaveType: Option<string>,
                                              startDate: DateInput, endDate: DateInput, reason: Option<string>)
    requires me.managerId.Some? && Truthy(leaveType) && ParseLeaveType(leaveType.value).Some?
    requires startDate.Date? && endDate.Date? && startDate.ms <= endDate.ms
    ensures var (reply, db') := CreateLeaveSpec(db, me, leaveType, startDate, endDate, reason, ApproverOptional);
      && reply.Ok? && reply.value.0 == db.nextId
      && db'.leaves == db.leaves[db.nextId := reply.value.1]
      && reply.value.1.status == Pending && reply.value.1.requesterId == me.id
  {
  }

  /**
   * `createLeave` on the store. The schema in force is a parameter: as
   * declared (`ApproverRequired`) the final save always fails.
   */
  method CreateLeave(db: Store, me: Principal, leaveType: Option<string>, startDate: DateInput,
                     endDate: DateInput, reason: Option<string>, schema: LeaveSchema)
    returns (reply: Result<(Id, Leave), LeaveError>)
    modifies db
    ensures (reply, db.State()) == CreateLeaveSpec(old(db.State()), me, leaveType, startDate, endDate, reason, schema)
  {
    CreateLeaveRefusals(db.State(), me, leaveType, startDate, endDate, reason, schema);
    if me.managerId.None? {
      return Err(NoManagerAssigned);
    }
    if !Truthy(leaveType) || startDate.Missing? || endDate.Missing? {
      return Err(MissingFields);
    }
    if startDate.Unparseable? || endDate.Unparseable? {
      return Err(InvalidDateFormat);
    }
    var start, end := startDate.ms, endDate.ms;
    if end < start {
      return Err(EndBeforeStart);
    }
    var totalDays := TotalDays(start, end);
    var leave := NewLeave(me.id, leaveType.value, start, end, totalDays, reason);
    if !Validates(schema, leave) {
      return Err(ServerError);
    }
    var id := db.InsertLeave(leave);
    reply := Ok((id, leave));
  }

  // ------------------------------------------------ approve, reject, cancel, delete

  /** Writes a changed leave back, if the schema accepts it. */
  function SaveSpec(db: Db, id: Id, l: Leave, schema: LeaveSchema): (Result<Leave, LeaveError>, Db)
  {
    if Validates(schema, l) then (Ok(l), db.(leaves := db.leaves[id := l])) else (Err(ServerError), db)
  }

  method Save(db: Store, id: Id, l: Leave, schema: LeaveSchema) returns (reply: Result<Leave, LeaveError>)
    modifies db
    ensures (reply, db.State()) == SaveSpec(old(db.State()), id, l, schema)
  {
    if !Validates(schema, l) {
      return Err(ServerError);
    }
    db.leaves := db.leaves[id := l];
    reply := Ok(l);
  }

  /** The guards `approveLeave` and `rejectLeave` share, in order. */
  function ActionChecks(db: Db, caller: Id, leaveId: Id): seq<Check<LeaveError>>
  {
    [ Check(leaveId in db.leaves, LeaveNotFound),
      Check(leaveId in db.leaves && ReportsTo(db.users, db.leaves[leaveId].requesterId, caller), NotAuthorised),
      Check(leaveId in db.leaves && db.leaves[leaveId].status == Pending, NotPending) ]
  }

  function Approve(l: Leave, actor: Id, note: Option<string>, now: Millis): Leave
  {
    l.(status := Approved, approverId := Some(actor), approvedAt := Some(now),
       approvalHistory := l.approvalHistory + [HistoryEntry(actor, ApprovedAction, OrNull(note), now)])
  }

  function ApproveLeaveSpec(db: Db, caller: Id, leaveId: Id, note: Option<string>, now: Millis,
                            schema: LeaveSchema): (Result<Leave, LeaveError>, Db)
  {
    match FirstFailure(ActionChecks(db, caller, leaveId))
    case Some(e) => (Err(e), db)
    case None =>
      assert ActionChecks(db, caller, leaveId)[0].passes;
      SaveSpec(db, leaveId, Approve(db.leaves[leaveId], caller, note, now), schema)
  }

  /**
   * `approveLeave`: not found (404), then not the requester's manager (403),
   * then not pending (400); a refusal changes nothing. When every guard
   * passes, the reply is 500 exactly when the schema refuses the approved
   * leave. On success the leave is approved by the caller at `now` with one
   * "approved" entry appended, and no other leave changes.
   */
  lemma ApproveLeaveContract(db: Db, caller: Id, leaveId: Id, note: Option<string>, now: Millis,
                             schema: LeaveSchema)
    ensures var (reply, db') := ApproveLeaveSpec(db, caller, leaveId, note, now, schema);
      && (reply == Err(LeaveNotFound) <==> leaveId !in db.leaves)
      && (reply == Err(NotAuthorised) <==>
            leaveId in db.leaves && !ReportsTo(db.users, db.leaves[leaveId].requesterId, caller))
      && (reply == Err(NotPending) <==>
            leaveId in db.leaves && ReportsTo(db.users, db.leaves[leaveId].requesterId, caller)
            && db.leaves[leaveId].status != Pending)
      && (reply == Err(ServerError) <==>
            leaveId in db.leaves && ReportsTo(db.users, db.leaves[leaveId].requesterId, caller)
            && db.leaves[leaveId].status == Pending
            && !Validates(schema, Approve(db.leaves[leaveId], caller, note, now)))
      && (reply.Err? ==> db' == db)
      && (reply.Ok? <==>
            leaveId in db.leaves && ReportsTo(db.users, db.leaves[leaveId].requesterId, caller)
            && db.leaves[leaveId].status == Pending
            && Validates(schema, Approve(db.leaves[leaveId], caller, note, now)))
      && (reply.Ok? ==>
            && db' == db.(leaves := db.leaves[leaveId := reply.value])
            && reply.value == db.leaves[leaveId].(
                 status := Approved, approverId := Some(caller), approvedAt := Some(now),
                 approvalHistory := db.leaves[leaveId].approvalHistory
                                    + [HistoryEntry(caller, ApprovedAction, OrNull(note), now)]))
  {
    var checks := ActionChecks(db, caller, leaveId);
    if !checks[0].passes {
      FirstFailureIsFirst(checks, 0);
    } else if !checks[1].passes {
      FirstFailureIsFirst(checks, 1);
    } else if !checks[2].passes {
      FirstFailureIsFirst(checks, 2);
    }
  }

  method ApproveLeave(db: Store, caller: Id, leaveId: Id, note: Option<string>, now: Millis)
    returns (reply: Result<Leave, LeaveError>)
    modifies db
    ensures (reply, db.State()) == ApproveLeaveSpec(old(db.State()), caller, leaveId, note, now, ApproverRequired)
  {
    ApproveLeaveContract(db.State(), caller, leaveId, note, now, ApproverRequired);
    if leaveId !in db.leaves {
      return Err(LeaveNotFound);
    }
    var leave := db.leaves[leaveId];
    if leave.requesterId !in db.users || db.users[leave.requesterId].managerId != Some(caller) {
      return Err(NotAuthorised);
    }
    if leave.status != Pending {
      return Err(NotPending);
    }
    leave := leave.(status := Approved, approverId := Some(caller), approvedAt := Some(now));
    leave := leave.(approvalHistory := leave.approvalHistory + [HistoryEntry(caller, ApprovedAction, OrNull(note), now)]);
    reply := Save(db, leaveId, leave, ApproverRequired);
  }

  function Reject(l: Leave, actor: Id, reason: string, note: Option<string>, now: Millis): Leave
  {
    l.(status := Rejected, approverId := Some(actor), rejectionReason := Some(Trim(reason)),
       rejectedAt := Some(now),
       approvalHistory := l.approvalHistory + [HistoryEntry(actor, RejectedAction, OrNull(note), now)])
  }

  function RejectLeaveSpec(db: Db, caller: Id, leaveId: Id, rejectionReason: Option<string>,
                           note: Option<string>, now: Millis, schema: LeaveSchema): (Result<Leave, LeaveError>, Db)
  {
    var checks := [Check(Truthy(rejectionReason), MissingRejectionReason)] + ActionChecks(db, caller, leaveId);
    match FirstFailure(checks)
    case Some(e) => (Err(e), db)
    case None =>
      assert checks[0].passes && checks[1].passes;
      SaveSpec(db, leaveId, Reject(db.leaves[leaveId], caller, rejectionReason.value, note, now), schema)
  }

  /**
   * `rejectLeave`: a missing reason is refused before the leave is looked
   * up, then the checks of `approveLeave` follow in the same order. When
   * every guard passes, the reply is 500 exactly when the schema refuses the
   * rejected leave. On success the leave is rejected by the caller at `now`,
   * keeps the trimmed reason, and gains one "rejected" entry.
   */
  lemma RejectLeaveContract(db: Db, caller: Id, leaveId: Id, rejectionReason: Option<string>,
                            note: Option<string>, now: Millis, schema: LeaveSchema)
    ensures var (reply, db') := RejectLeaveSpec(db, caller, leaveId, rejectionReason, note, now, schema);
      && (reply == Err(MissingRejectionReason) <==> !Truthy(rejectionReason))
      && (reply == Err(LeaveNotFound) <==> Truthy(rejectionReason) && leaveId !in db.leaves)
      && (reply == Err(NotAuthorised) <==>
            Truthy(rejectionReason) && leaveId in db.leaves
            && !ReportsTo(db.users, db.leaves[leaveId].requesterId, caller))
      && (reply == Err(NotPending) <==>
            Truthy(rejectionReason) && leaveId in db.leaves
            && ReportsTo(db.users, db.leaves[leaveId].requesterId, caller)
            && db.leaves[leaveId].status != Pending)
      && (reply == Err(ServerError) <==>
            Truthy(rejectionReason) && leaveId in db.leaves
            && ReportsTo(db.users, db.leaves[leaveId].requesterId, caller)
            && db.leaves[leaveId].status == Pending
            && !Validates(schema, Reject(db.leaves[leaveId], caller, rejectionReason.value, note, now)))
      && (reply.Err? ==> db' == db)
      && (reply.Ok? <==>
            Truthy(rejectionReason) && leaveId in db.leaves
            && ReportsTo(db.users, db.leaves[leaveId].requesterId, caller)
            && db.leaves[leaveId].status == Pending
            && Validates(schema, Reject(db.leaves[leaveId], caller, rejectionReason.value, note, now)))
      && (reply.Ok? ==>
            && db' == db.(leaves := db.leaves[leaveId := reply.value])
            && reply.value == db.leaves[leaveId].(
                 status := Rejected, approverId := Some(caller),
                 rejectionReason := Some(Trim(rejectionReason.value)), rejectedAt := Some(now),
                 approvalHistory := db.leaves[leaveId].approvalHistory
                                    + [HistoryEntry(caller, RejectedAction, OrNull(note), now)]))
  {
    var checks := [Check(Truthy(rejectionReason), MissingRejectionReason)] + ActionChecks(db, caller, leaveId);
    if !checks[0].passes {
      FirstFailureIsFirst(checks, 0);
    } else if !checks[1].passes {
      FirstFailureIsFirst(checks, 1);
    } else if !checks[2].passes {
      FirstFailureIsFirst(checks, 2);
    } else if !checks[3].passes {
      FirstFailureIsFirst(checks, 3);
    }
  }

  method RejectLeave(db: Store, caller: Id, leaveId: Id, rejectionReason: Option<string>,
                     note: Option<string>, now: Millis)
    returns (reply: Result<Leave, LeaveError>)
    modifies db
    ensures (reply, db.State()) == RejectLeaveSpec(old(db.State()), caller, leaveId, rejectionReason, note, now, ApproverRequired)
  {
    RejectLeaveContract(db.State(), caller, leaveId, rejectionReason, note, now, ApproverRequired);
    if !Truthy(rejectionReason) {
      return Err(MissingRejectionReason);
    }
    if leaveId !in db.leaves {
      return Err(LeaveNotFound);
    }
    var leave := db.leaves[leaveId];
    if leave.requesterId !in db.users || db.users[leave.requesterId].managerId != Some(caller) {
      return Err(NotAuthorised);
    }
    if leave.status != Pending {
      return Err(NotPending);
    }
    leave := leave.(status := Rejected, approverId := Some(caller));
    leave := leave.(rejectionReason := Some(Trim(rejectionReason.value)), rejectedAt := Some(now));
    leave := leave.(approvalHistory := leave.approvalHistory + [HistoryEntry(caller, RejectedAction, OrNull(note), now)]);
    reply := Save(db, leaveId, leave, ApproverRequired);
  }

  function Cancel(l: Leave, actor: Id, note: Option<string>, now: Millis): Leave
  {
    l.(status := Cancelled, cancelledAt := Some(now),
       approvalHistory := l.approvalHistory + [HistoryEntry(actor, CancelledAction, OrNull(note), now)])
  }

  function CancelLeaveSpec(db: Db, caller: Id, leaveId: Id, note: Option<string>, now: Millis,
                           schema: LeaveSchema): (Result<Leave, LeaveError>, Db)
  {
    var checks := [ Check(leaveId in db.leaves, LeaveNotFound),
                    Check(leaveId in db.leaves && db.leaves[leaveId].status == Approved, NotApproved) ];
    match FirstFailure(checks)
    case Some(e) => (Err(e), db)
    case None =>
      assert checks[0].passes;
      SaveSpec(db, leaveId, Cancel(db.leaves[leaveId], caller, note, now), schema)
  }

  /**
   * `cancelLeave`: not found (404), then anything but an approved leave is
   * refused (400) and left as it is. When both guards pass, the reply is 500
   * exactly when the schema refuses the cancelled leave. On success the leave
   * is cancelled at `now` with one "cancelled" entry by the caller appended.
   */
  lemma CancelLeaveContract(db: Db, caller: Id, leaveId: Id, note: Option<string>, now: Millis,
                            schema: LeaveSchema)
    ensures var (reply, db') := CancelLeaveSpec(db, caller, leaveId, note, now, schema);
      && (reply == Err(LeaveNotFound) <==> leaveId !in db.leaves)
      && (reply == Err(NotApproved) <==> leaveId in db.leaves && db.leaves[leaveId].status != Approved)
      && (reply == Err(ServerError) <==>
            leaveId in db.leaves && db.leaves[leaveId].status == Approved
            && !Validates(schema, Cancel(db.leaves[leaveId], caller, note, now)))
      && (reply.Err? ==> db' == db)
      && (reply.Ok? <==>
            leaveId in db.leaves && db.leaves[leaveId].status == Approved
            && Validates(schema, Cancel(db.leaves[leaveId], caller, note, now)))
      && (reply.Ok? ==>
            && db' == db.(leaves := db.leaves[leaveId := reply.value])
            && reply.value == db.leaves[leaveId].(
                 status := Cancelled, cancelledAt := Some(now),
                 approvalHistory := db.leaves[leaveId].approvalHistory
                                    + [HistoryEntry(caller, CancelledAction, OrNull(note), now)]))
  {
    var checks := [ Check(leaveId in db.leaves, LeaveNotFound),
                    Check(leaveId in db.leaves && db.leaves[leaveId].status == Approved, NotApproved) ];
    if !checks[0].passes {
      FirstFailureIsFirst(checks, 0);
    } else if !checks[1].passes {
      FirstFailureIsFirst(checks, 1);
    }
  }

  method CancelLeave(db: Store, caller: Id, leaveId: Id, note: Option<string>, now: Millis)
    returns (reply: Result<Leave, LeaveError>)
    modifies db
    ensures (reply, db.State()) == CancelLeaveSpec(old(db.State()), caller, leaveId, note, now, ApproverRequired)
  {
    CancelLeaveContract(db.State(), caller, leaveId, note, now, ApproverRequired);
    if leaveId !in db.leaves {
      return Err(LeaveNotFound);
    }
    var leave := db.leaves[leaveId];
    if leave.status != Approved {
      return Err(NotApproved);
    }
    leave := leave.(status := Cancelled, cancelledAt := Some(now));
    leave := leave.(approvalHistory := leave.approvalHistory + [HistoryEntry(caller, CancelledAction, OrNull(note), now)]);
    reply := Save(db, leaveId, leave, ApproverRequired);
  }

  function DeleteLeaveSpec(db: Db, caller: Id, leaveId: Id): (Result<Id, LeaveError>, Db)
  {
    var checks := [ Check(leaveId in db.leaves, LeaveNotFound),
                    Check(leaveId in db.leaves && db.leaves[leaveId].requesterId == caller, NotAuthorised),
                    Check(leaveId in db.leaves && db.leaves[leaveId].status == Pending, NotPending) ];
    match FirstFailure(checks)
    case Some(e) => (Err(e), db)
    case None => (Ok(leaveId), db.(leaves := db.leaves - {leaveId}))
  }

  /**
   * `deleteLeave`: not found (404), then not the caller's own leave (403),
   * then not pending (400). The caller's own pending leave is always
   * deleted: exactly that leave is removed and every other leave stays as it
   * was.
   */
  lemma DeleteLeaveContract(db: Db, caller: Id, leaveId: Id)
    ensures var (reply, db') := DeleteLeaveSpec(db, caller, leaveId);
      && (reply == Err(LeaveNotFound) <==> leaveId !in db.leaves)
      && (reply == Err(NotAuthorised) <==> leaveId in db.leaves && db.leaves[leaveId].requesterId != caller)
      && (reply == Err(NotPending) <==>
            leaveId in db.leaves && db.leaves[leaveId].requesterId == caller
            && db.leaves[leaveId].status != Pending)
      && (reply.Err? ==> db' == db)
      && (reply == Ok(leaveId) <==>
            leaveId in db.leaves && db.leaves[leaveId].requesterId == caller
            && db.leaves[leaveId].status == Pending)
      && (reply.Ok? ==>
            && db.leaves[leaveId].status == Pending && db.leaves[leaveId].requesterId == caller
            && db'.leaves.Keys == db.leaves.Keys - {leaveId}
            && (forall id :: id in db'.leaves ==> db'.leaves[id] == db.leaves[id])
            && db' == db.(leaves := db'.leaves))
  {
    var checks := [ Check(leaveId in db.leaves, LeaveNotFound),
                    Check(leaveId in db.leaves && db.leaves[leaveId].requesterId == caller, NotAuthorised),
                    Check(leaveId in db.leaves && db.leaves[leaveId].status == Pending, NotPending) ];
    if !checks[0].passes {
      FirstFailureIsFirst(checks, 0);
    } else if !checks[1].passes {
      FirstFailureIsFirst(checks, 1);
    } else if !checks[2].passes {
      FirstFailureIsFirst(checks, 2);
    }
  }

  method DeleteLeave(db: Store, caller: Id, leaveId: Id) returns (reply: Result<Id, LeaveError>)
    modifies db
    ensures (reply, db.State()) == DeleteLeaveSpec(old(db.State()), caller, leaveId)
  {
    DeleteLeaveContract(db.State(), caller, leaveId);
    if leaveId !in db.leaves {
      return Err(LeaveNotFound);
    }
    var leave := db.leaves[leaveId];
    if leave.requesterId != caller {
      return Err(NotAuthorised);
    }
    if leave.status != Pending {
      return Err(NotPending);
    }
    db.leaves := db.leaves - {leaveId};
    reply := Ok(leaveId);
  }

  // ---------------------------------------------------------------- queries

  /** The optional `status` query narrows a listing; an empty one does not. */
  predicate MatchesStatus(l: Leave, status: Option<string>)
  {
    !Truthy(status) || StatusName(l.status) == status.value
  }

  /** `getAllLeaves`. */
  function AllLeaves(db: Db, status: Option<string>): map<Id, Leave>
  {
    map id | id in db.leaves && MatchesStatus(db.leaves[id], status) :: db.leaves[id]
  }

  /** `getMyLeaves`. */
  function MyLeaves(db: Db, caller: Id, status: Option<string>): map<Id, Leave>
  {
    map id | id in db.leaves && db.leaves[id].requesterId == caller && MatchesStatus(db.leaves[id], status)
      :: db.leaves[id]
  }

  /** The caller's direct reports: `User.find({ managerId: caller })`. */
  function TeamMemberIds(users: map<Id, UserModel.User>, caller: Id): set<Id>
  {
    set id | id in users && users[id].managerId == Some(caller)
  }

  /** `getTeamLeaves`: the leaves whose requester is among the team ids. */
  function TeamLeaves(db: Db, caller: Id, status: Option<string>): map<Id, Leave>
  {
    var teamIds := TeamMemberIds(db.users, caller);
    map id | id in db.leaves && db.leaves[id].requesterId in teamIds && MatchesStatus(db.leaves[id], status)
      :: db.leaves[id]
  }

  /**
   * The team listing holds exactly the stored leaves whose requester reports
   * to the caller, narrowed to one status when a status is given.
   */
  lemma TeamLeavesExact(db: Db, caller: Id, s: Option<LeaveStatus>)
    ensures var status := if s.Some? then Some(StatusName(s.value)) else None;
      var team := TeamLeaves(db, caller, status);
      && (forall id :: id in team <==>
            id in db.leaves && ReportsTo(db.users, db.leaves[id].requesterId, caller)
            && (s.Some? ==> db.leaves[id].status == s.value))
      && (forall id :: id in team ==> team[id] == db.leaves[id])
  {
  }

  /**
   * A `status` filter that names no leave status matches nothing, so the
   * team listing is empty, as the database query on an unknown value is.
   */
  lemma TeamLeavesUnknownStatus(db: Db, caller: Id, status: string)
    requires status != "" && forall s: LeaveStatus :: StatusName(s) != status
    ensures TeamLeaves(db, caller, Some(status)) == map[]
  {
  }

  /** Every leave of the caller's own listing is the caller's, and in the full listing. */
  lemma MyLeavesAreOwn(db: Db, caller: Id, status: Option<string>)
    ensures var mine := MyLeaves(db, caller, status);
      && (forall id :: id in mine ==> mine[id].requesterId == caller)
      && (forall id :: id in mine ==> id in AllLeaves(db, status) && AllLeaves(db, status)[id] == mine[id])
      && (forall id :: id in db.leaves && db.leaves[id].requesterId == caller && !Truthy(status) ==> id in mine)
  {
  }

  /** The user summary `getUserLeaves` returns beside the leaves. */
  datatype TeamMember = TeamMember(id: Id, name: string, email: string, role: UserModel.Role)

  /** `getUserLeaves`: not found (404), then not a direct report (403). */
  function UserLeaves(db: Db, caller: Id, userId: Id, status: Option<string>)
    : Result<(TeamMember, map<Id, Leave>), LeaveError>
  {
    var checks := [ Check(userId in db.users, UserNotFound),
                    Check(ReportsTo(db.users, userId, caller), NotInTeam) ];
    match FirstFailure(checks)
    case Some(e) => Err(e)
    case None =>
      assert checks[0].passes;
      var u := db.users[userId];
      Ok((TeamMember(userId, u.name, u.email, u.role),
          map id | id in db.leaves && db.leaves[id].requesterId == userId && MatchesStatus(db.leaves[id], status)
            :: db.leaves[id]))
  }

  /**
   * A manager sees a user's leaves exactly for a direct report, and then
   * they are exactly that user's part of the team listing.
   */
  lemma UserLeavesWithinTeam(db: Db, caller: Id, userId: Id, status: Option<string>)
    ensures var r := UserLeaves(db, caller, userId, status);
      && (r == Err(UserNotFound) <==> userId !in db.users)
      && (r == Err(NotInTeam) <==> userId in db.users && !ReportsTo(db.users, userId, caller))
      && (r.Ok? <==> ReportsTo(db.users, userId, caller))
      && (r.Ok? ==>
            var team := TeamLeaves(db, caller, status);
            && var u := db.users[userId];
            && r.value.0 == TeamMember(userId, u.name, u.email, u.role)
            && r.value.1 == map id | id in team && team[id].requesterId == userId :: team[id])
  {
    var checks := [ Check(userId in db.users, UserNotFound),
                    Check(ReportsTo(db.users, userId, caller), NotInTeam) ];
    if !checks[0].passes {
      FirstFailureIsFirst(checks, 0);
    } else if !checks[1].passes {
      FirstFailureIsFirst(checks, 1);
    }
  }
}

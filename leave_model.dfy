/**
 * The leave schema: leave types, the status enumeration and its default, the
 * approval history and its action enumeration, the required references, and
 * the pre-validate hook that refuses an end date before the start date.
 */
module LeaveModel {
  import opened Common

  datatype LeaveType = Casual | Sick | Earned | Unpaid

  function LeaveTypeName(t: LeaveType): string
  {
    match t
    case Casual => "casual"
    case Sick => "sick"
    case Earned => "earned"
    case Unpaid => "unpaid"
  }

  /** The leave type enumeration: the only strings the schema accepts. */
  function ParseLeaveType(s: string): (r: Option<LeaveType>)
    ensures r.Some? ==> LeaveTypeName(r.value) == s
  {
    if s == "casual" then Some(Casual)
    else if s == "sick" then Some(Sick)
    else if s == "earned" then Some(Earned)
    else if s == "unpaid" then Some(Unpaid)
    else None
  }

  lemma LeaveTypeNamesRoundTrip(t: LeaveType)
    ensures ParseLeaveType(LeaveTypeName(t)) == Some(t)
  {
  }

  datatype LeaveStatus = Pending | Approved | Rejected | Cancelled

  function StatusName(s: LeaveStatus): string
  {
    match s
    case Pending => "pending"
    case Approved => "approved"
    case Rejected => "rejected"
    case Cancelled => "cancelled"
  }

  /** Distinct statuses have distinct names, so a status filter picks one status. */
  lemma StatusNamesDistinct(a: LeaveStatus, b: LeaveStatus)
    ensures StatusName(a) == StatusName(b) <==> a == b
  {
  }

  const DefaultStatus: LeaveStatus := Pending

  /** The approval history action enumeration. */
  datatype Action = ApprovedAction | RejectedAction | CancelledAction

  datatype HistoryEntry = HistoryEntry(actionBy: Id, action: Action, note: Option<string>, actionAt: Millis)

  /**
   * A leave document. The requester is always set by the one constructing
   * path, so it is not optional here; `leaveType` is the string as submitted,
   * which the enumeration validates when the document is saved.
   */
  datatype Leave = Leave(
    requesterId: Id,
    approverId: Option<Id>,
    leaveType: string,
    startDate: Millis,
    endDate: Millis,
    totalDays: int,
    reason: Option<string>,
    status: LeaveStatus,
    rejectionReason: Option<string>,
    approvedAt: Option<Millis>,
    rejectedAt: Option<Millis>,
    cancelledAt: Option<Millis>,
    approvalHistory: seq<HistoryEntry>)

  /** Optional strings run through the `trim` setter. */
  function TrimmedOpt(s: Option<string>): Option<string>
  {
    match s
    case None => None
    case Some(v) => Some(Trim(v))
  }

  /** `new Leave({...})` with the given fields: defaults for the rest. */
  function NewLeave(requesterId: Id, leaveType: string, startDate: Millis, endDate: Millis,
                    totalDays: int, reason: Option<string>): Leave
  {
    Leave(requesterId, None, leaveType, startDate, endDate, totalDays, TrimmedOpt(reason),
          DefaultStatus, None, None, None, None, [])
  }

  /** A new leave is pending, has no approver and an empty history. */
  lemma NewLeaveDefaults(requesterId: Id, leaveType: string, s: Millis, e: Millis, days: int, reason: Option<string>)
    ensures var l := NewLeave(requesterId, leaveType, s, e, days, reason);
      l.status == Pending && l.approverId == None && l.approvalHistory == []
      && l.requesterId == requesterId && l.rejectionReason == None
  {
  }

  /** The pre-validate hook: the end date is not before the start date. */
  predicate DatesOrdered(l: Leave)
  {
    !(l.endDate < l.startDate)
  }

  /** Whether `approverId` carries `required: true` (it does, as written). */
  datatype LeaveSchema = ApproverRequired | ApproverOptional

  /**
   * Schema validation on save: the hook, the required approver (as
   * declared), and the leave type enumeration.
   */
  predicate Validates(schema: LeaveSchema, l: Leave)
  {
    DatesOrdered(l)
    && (schema == ApproverRequired ==> l.approverId.Some?)
    && ParseLeaveType(l.leaveType).Some?
  }

  /** Validation fails when the end is before the start, and equal dates pass. */
  lemma ValidationOnDates(schema: LeaveSchema, l: Leave)
    requires ParseLeaveType(l.leaveType).Some? && l.approverId.Some?
    ensures Validates(schema, l) <==> l.startDate <= l.endDate
    ensures l.startDate == l.endDate ==> Validates(schema, l)
  {
  }

  /** The history as a sequence of its actions. */
  function Actions(h: seq<HistoryEntry>): (r: seq<Action>)
    ensures |r| == |h|
    ensures forall i :: 0 <= i < |h| ==> r[i] == h[i].action
  {
    seq(|h|, i requires 0 <= i < |h| => h[i].action)
  }

  lemma ActionsAppend(h: seq<HistoryEntry>, e: HistoryEntry)
    ensures Actions(h + [e]) == Actions(h) + [e.action]
  {
  }
}

/**
 * The reimbursement schema: categories, the non-negative amount, receipts,
 * the status enumeration and its default, the default-null approver and the
 * approval history action enumeration.
 */
module ReimbursementModel {
  import opened Common

  datatype Category = Travel | Food | Medical | Fuel | Other

  function CategoryName(c: Category): string
  {
    match c
    case Travel => "travel"
    case Food => "food"
    case Medical => "medical"
    case Fuel => "fuel"
    case Other => "other"
  }

  /** The category enumeration: the only strings the schema accepts. */
  function ParseCategory(s: string): (r: Option<Category>)
    ensures r.Some? ==> CategoryName(r.value) == s
  {
    if s == "travel" then Some(Travel)
    else if s == "food" then Some(Food)
    else if s == "medical" then Some(Medical)
    else if s == "fuel" then Some(Fuel)
    else if s == "other" then Some(Other)
    else None
  }

  lemma CategoryNamesRoundTrip(c: Category)
    ensures ParseCategory(CategoryName(c)) == Some(c)
  {
  }

  datatype ReimbursementStatus = Pending | Approved | Rejected | Paid

  const DefaultStatus: ReimbursementStatus := Pending

  /** The approval history action enumeration. */
  datatype Action = ApprovedAction | RejectedAction | PaidAction

  datatype HistoryEntry = HistoryEntry(actionBy: Id, action: Action, note: Option<string>, actionAt: Millis)

  datatype Receipt = Receipt(url: string, uploadedAt: Millis)

  /** The `min: 0` bound on the amount. */
  const MinAmount: real := 0.0

  /**
   * A reimbursement document; `category` is the string as submitted, which
   * the enumeration validates when the document is saved.
   */
  datatype Reimbursement = Reimbursement(
    requesterId: Id,
    approverId: Option<Id>,
    category: string,
    amount: real,
    description: Option<string>,
    receipts: seq<Receipt>,
    status: ReimbursementStatus,
    rejectionReason: Option<string>,
    approvedAt: Option<Millis>,
    paidAt: Option<Millis>,
    approvalHistory: seq<HistoryEntry>)

  /** `new Reimbursement({...})` with the given fields: defaults for the rest. */
  function NewReimbursement(requesterId: Id, category: string, amount: real,
                            description: Option<string>, receipts: seq<Receipt>): Reimbursement
  {
    var trimmed := match description case None => None case Some(d) => Some(Trim(d));
    Reimbursement(requesterId, None, category, amount, trimmed, receipts, DefaultStatus, None, None, None, [])
  }

  /** A new reimbursement is pending, has no approver and an empty history. */
  lemma NewReimbursementDefaults(requesterId: Id, category: string, amount: real,
                                 description: Option<string>, receipts: seq<Receipt>)
    ensures var r := NewReimbursement(requesterId, category, amount, description, receipts);
      r.status == Pending && r.approverId == None && r.approvalHistory == []
      && r.requesterId == requesterId && r.amount == amount && r.receipts == receipts
  {
  }

  /**
   * Schema validation on save: a known category, an amount of at least
   * `MinAmount`, and a non-empty url on every receipt.
   */
  predicate Validates(r: Reimbursement)
  {
    ParseCategory(r.category).Some?
    && r.amount >= MinAmount
    && forall i :: 0 <= i < |r.receipts| ==> r.receipts[i].url != ""
  }
}

/**
 * Submitting a reimbursement: a caller without a manager is refused, then a
 * request missing the category or the amount, then an amount that is not a
 * positive number; the receipts are the uploaded files' paths in upload
 * order, and the schema's validation on save decides the rest.
 */
module ReimbursementController {
  import opened Common
  import opened ReimbursementModel
  import opened Database

  datatype ReimbursementError = NoManagerAssigned | MissingFields | InvalidAmount | ServerError

  function HttpStatus(e: ReimbursementError): nat
  {
    match e
    case NoManagerAssigned | MissingFields | InvalidAmount => 400
    case ServerError => 500
  }

  /**
   * The submitted `amount`: falsy (absent, empty, or the number 0), or a
   * truthy value together with what `parseFloat` makes of it (None for NaN).
   */
  datatype AmountInput = AmountFalsy | AmountGiven(parsed: Option<real>)

  /** An uploaded file, as the upload middleware describes it. */
  datatype UploadedFile = UploadedFile(path: string)

  /** `(req.files || []).map((file) => ({ url: file.path }))`, stamped at `now`. */
  function ReceiptsOf(files: seq<UploadedFile>, now: Millis): (r: seq<Receipt>)
    ensures |r| == |files|
    ensures forall i :: 0 <= i < |r| ==> r[i] == Receipt(files[i].path, now)
  {
    if files == [] then [] else [Receipt(files[0].path, now)] + ReceiptsOf(files[1..], now)
  }

  /** The guards of `createReimbursement`, in order. */
  function CreateChecks(me: Principal, category: Option<string>, amount: AmountInput)
    : seq<Check<ReimbursementError>>
  {
    [ Check(me.managerId.Some?, NoManagerAssigned),
      Check(Truthy(category) && amount.AmountGiven?, MissingFields),
      Check(amount.AmountGiven? ==> amount.parsed.Some? && amount.parsed.value > 0.0, InvalidAmount) ]
  }

  function CreateReimbursementSpec(db: Db, me: Principal, category: Option<string>, amount: AmountInput,
                                   description: Option<string>, files: Option<seq<UploadedFile>>, now: Millis)
    : (Result<(Id, Reimbursement), ReimbursementError>, Db)
  {
    var checks := CreateChecks(me, category, amount);
    match FirstFailure(checks)
    case Some(e) => (Err(e), db)
    case None =>
      assert checks[1].passes && checks[2].passes;
      var receipts := ReceiptsOf(if files.Some? then files.value else [], now);
      var r := NewReimbursement(me.id, category.value, amount.parsed.value, description, receipts);
      if Validates(r) then
        (Ok((db.nextId, r)), db.(reimbursements := db.reimbursements[db.nextId := r], nextId := db.nextId + 1))
      else
        (Err(ServerError), db)
  }

  /**
   * `createReimbursement`'s refusals in order: no manager, then a missing
   * category or amount, then an amount that is not a positive number; a
   * refusal changes nothing.
   */
  lemma CreateReimbursementRefusals(db: Db, me: Principal, category: Option<string>, amount: AmountInput,
                                    description: Option<string>, files: Option<seq<UploadedFile>>, now: Millis)
    ensures var (reply, db') := CreateReimbursementSpec(db, me, category, amount, description, files, now);
      && (reply == Err(NoManagerAssigned) <==> me.managerId.None?)
      && (reply == Err(MissingFields) <==> me.managerId.Some? && (!Truthy(category) || amount.AmountFalsy?))
      && (reply == Err(InvalidAmount) <==>
            me.managerId.Some? && Truthy(category) && amount.AmountGiven?
            && (amount.parsed.None? || amount.parsed.value <= 0.0))
      && (reply.Err? ==> db' == db)
  {
    var checks := CreateChecks(me, category, amount);
    if !checks[0].passes {
      FirstFailureIsFirst(checks, 0);
    } else if !checks[1].passes {
      FirstFailureIsFirst(checks, 1);
    } else if !checks[2].passes {
      FirstFailureIsFirst(checks, 2);
    }
  }

  /**
   * A request that passes the guards is stored under a fresh id exactly
   * when its category is one of the five and every uploaded file has a
   * path; the record is the caller's, pending, with no approver, the
   * trimmed description, the parsed amount (positive, so the schema's minimum never fires), and one receipt
   * per uploaded file, in upload order.
   */
  lemma CreateReimbursementAccepted(db: Db, me: Principal, category: string, parsed: real,
                                    description: Option<string>, files: Option<seq<UploadedFile>>, now: Millis)
    requires me.managerId.Some? && category != "" && parsed > 0.0
    ensures var (reply, db') :=
        CreateReimbursementSpec(db, me, Some(category), AmountGiven(Some(parsed)), description, files, now);
      && (reply.Err? <==>
            ParseCategory(category).None?
            || (files.Some? && exists i :: 0 <= i < |files.value| && files.value[i].path == ""))
      && (reply.Err? ==> reply == Err(ServerError))
      && (reply.Ok? ==>
            var (id, r) := reply.value;
            && id == db.nextId
            && db' == db.(reimbursements := db.reimbursements[id := r], nextId := id + 1)
            && r.requesterId == me.id && r.status == Pending && r.approverId == None && r.approvalHistory == []
            && r.category == category && r.amount == parsed && r.amount > MinAmount
            && r.description == (match description case None => None case Some(d) => Some(Trim(d)))
            && r.rejectionReason == None && r.approvedAt == None && r.paidAt == None
            && |r.receipts| == (if files.Some? then |files.value| else 0)
            && (forall i :: 0 <= i < |r.receipts| ==> r.receipts[i].url == files.value[i].path))
  {
  }

  /** `createReimbursement` on the store. */
  method CreateReimbursement(db: Store, me: Principal, category: Option<string>, amount: AmountInput,
                             description: Option<string>, files: Option<seq<UploadedFile>>, now: Millis)
    returns (reply: Result<(Id, Reimbursement), ReimbursementError>)
    modifies db
    ensures (reply, db.State()) == CreateReimbursementSpec(old(db.State()), me, category, amount, description, files, now)
  {
    CreateReimbursementRefusals(db.State(), me, category, amount, description, files, now);
    if me.managerId.None? {
      return Err(NoManagerAssigned);
    }
    if !Truthy(category) || amount.AmountFalsy? {
      return Err(MissingFields);
    }
    var parsedAmount := amount.parsed;
    if parsedAmount.None? || parsedAmount.value <= 0.0 {
      return Err(InvalidAmount);
    }
    var receipts := ReceiptsOf(if files.Some? then files.value else [], now);
    var r := NewReimbursement(me.id, category.value, parsedAmount.value, description, receipts);
    if !Validates(r) {
      return Err(ServerError);
    }
    var id := db.InsertReimbursement(r);
    reply := Ok((id, r));
  }
}

/** `createExpense` and `approveExpense` (controller/ExpenseController.java). */
module ExpenseController {

  import opened Wrappers
  import opened Http
  import opened Expenses
  import opened Multipart
  import opened ExpenseService

  /** 100.00 in cents: at or below it an expense is created APPROVED. */
  const AutoApproveLimit: Cents := 10000

  datatype Created = Created(message: string, expense: Expense)

  /** A receipt that is present, not empty, and whose content cannot be read. */
  predicate ReceiptUnreadable(receipt: Option<MultipartFile>) {
    receipt.Some? && !IsEmpty(receipt.value) && receipt.value.bytes.None?
  }

  /** The expense `createExpense` hands to `add`, or None when reading the
      receipt fails. */
  function Draft(amount: Cents, category: string, description: string, date: Date,
                 comments: Option<string>, receipt: Option<MultipartFile>): (r: Option<Expense>)
    ensures r.None? <==> ReceiptUnreadable(receipt)
    ensures r.Some? ==> (r.value.approvalStatus == APPROVED <==> amount <= AutoApproveLimit)
    ensures r.Some? ==> (r.value.approvalStatus == PENDING <==> amount > AutoApproveLimit)
    ensures r.Some? ==> (r.value.attachment.Some? <==> receipt.Some? && !IsEmpty(receipt.value))
    ensures r.Some? && r.value.attachment.Some? ==>
              r.value.attachment == receipt.value.bytes && r.value.attachmentType == receipt.value.contentType
    ensures r.Some? ==> r.value.owner.None? && r.value.id.None? && r.value.priority.None?
    ensures r.Some? ==> && r.value.amount == amount && r.value.category == category
                        && r.value.description == description && r.value.date == date
                        && r.value.comments == comments && r.value.approvalLevel == Some(MANAGER)
  {
    var status := if amount <= AutoApproveLimit then APPROVED else PENDING;
    var e := NewExpense(amount, category, description, date).(approvalStatus := status, comments := comments);
    if receipt.Some? && !IsEmpty(receipt.value) then
      match receipt.value.bytes
      case None => None
      case Some(b) => Some(e.(attachment := Some(b), attachmentType := receipt.value.contentType))
    else Some(e)
  }

  /** The status is fixed before `add`, and `add` leaves it alone: an
      auto-approved expense still gets tier MANAGER and priority "Low". */
  lemma AutoApprovedIsRoutedLow(amount: Cents, category: string, description: string, date: Date,
                                comments: Option<string>, receipt: Option<MultipartFile>)
    requires !ReceiptUnreadable(receipt) && amount <= AutoApproveLimit
    ensures var e := Route(Draft(amount, category, description, date, comments, receipt).value);
            e.approvalStatus == APPROVED && e.approvalLevel == Some(MANAGER) && e.priority == Some("Low")
  {
  }

  /** Above the threshold the expense waits, at the tier its amount selects. */
  lemma PendingIsRoutedByAmount(amount: Cents, category: string, description: string, date: Date,
                                comments: Option<string>, receipt: Option<MultipartFile>)
    requires !ReceiptUnreadable(receipt) && amount > AutoApproveLimit
    ensures var e := Route(Draft(amount, category, description, date, comments, receipt).value);
            e.approvalStatus == PENDING && e.approvalLevel == Some(TierFor(amount))
            && ApprovalsNeeded(TierFor(amount)) == (if amount < LowLimit then 3 else if amount < MediumLimit then 2 else 1)
  {
  }

  /** `createExpense`: build the expense by setters, attach the receipt when
      there is one, then `add` it; a receipt read failure answers 400 and
      saves nothing. */
  method CreateExpense(service: Service, amount: Cents, category: string, description: string, date: Date,
                       comments: Option<string>, receipt: Option<MultipartFile>) returns (r: Response<Created>)
    requires service.Valid()
    modifies service
    ensures service.Valid()
    ensures ReceiptUnreadable(receipt) ==>
              r == Fail(BadRequest, "File processing error")
              && service.repository == old(service.repository) && service.nextId == old(service.nextId)
    ensures !ReceiptUnreadable(receipt) ==>
              && r.Ok? && r.body.message == "Expense saved successfully"
              && r.body.expense.(id := None) == Route(Draft(amount, category, description, date, comments, receipt).value)
              && r.body.expense.id == Some(old(service.nextId))
              && service.repository == old(service.repository)[old(service.nextId) := r.body.expense]
              && service.nextId == old(service.nextId) + 1
  {
    var expense := NewExpense(amount, category, description, date);
    if amount <= AutoApproveLimit {
      expense := expense.(approvalStatus := APPROVED);
    } else {
      expense := expense.(approvalStatus := PENDING);
    }
    expense := expense.(comments := comments);
    if receipt.Some? && !IsEmpty(receipt.value) {
      match receipt.value.bytes
      case None =>
        return Fail(BadRequest, "File processing error");
      case Some(b) =>
        expense := expense.(attachment := Some(b), attachmentType := receipt.value.contentType);
    }
    var saved := service.Add(expense);
    r := Ok(Created("Expense saved successfully", saved));
  }

  /** `approveExpense`: "updated!" when `approve` reports true, "failed!"
      otherwise, both with status 200; the not-found exception of `approve`
      propagates as a Failure. */
  method ApproveExpense(service: Service, id: int) returns (r: Result<Response<string>, string>)
    requires service.Valid()
    modifies service
    ensures service.Valid()
    ensures service.nextId == old(service.nextId)
    ensures id !in old(service.repository) ==>
              r == Failure("expense not found!") && service.repository == old(service.repository)
    ensures id in old(service.repository) ==>
              r == Success(Ok(if old(service.repository)[id].approvalLevel.Some? then "updated!" else "failed!"))
              && service.repository == old(service.repository)[id := ApproveStep(old(service.repository)[id]).0]
  {
    var approved := service.Approve(id);
    match approved
    case Failure(msg) =>
      r := Failure(msg);
    case Success(b) =>
      if b {
        r := Success(Ok("updated!"));
      } else {
        r := Success(Ok("failed!"));
      }
  }
}

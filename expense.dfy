/** The expense record (model/Expense.java) and the values it holds. */
module Expenses {

  import opened Wrappers

  /** Amounts are kept in whole cents; the source's `double` rounding is not modelled. */
  type Cents = int

  datatype Status = PENDING | APPROVED | REJECTED

  /** The approval tier whose turn it is. */
  datatype Level = MANAGER | FINANCE | ADMIN

  type Month = m: int | 1 <= m <= 12 witness 1
  type Day = d: int | 1 <= d <= 31 witness 1

  /** A `LocalDate`, already parsed. */
  datatype Date = Date(year: int, month: Month, day: Day)

  /** The name `Enum.name()` gives each status. */
  function StatusName(s: Status): (r: string)
    ensures |r| > 0
  {
    match s
    case PENDING => "PENDING"
    case APPROVED => "APPROVED"
    case REJECTED => "REJECTED"
  }

  lemma StatusNameInjective(a: Status, b: Status)
    ensures StatusName(a) == StatusName(b) <==> a == b
  {
  }

  /** `LocalDate.compareTo`: the year difference, else the month difference,
      else the day difference. */
  function CompareDates(a: Date, b: Date): int {
    if a.year != b.year then a.year - b.year
    else if a.month != b.month then a.month - b.month
    else a.day - b.day
  }

  /** A number that orders dates as `CompareDates` does. */
  function DayNumber(d: Date): int {
    (d.year * 13 + d.month) * 32 + d.day
  }

  lemma DayNumberOrdersDates(a: Date, b: Date)
    ensures CompareDates(a, b) < 0 <==> DayNumber(a) < DayNumber(b)
    ensures CompareDates(a, b) == 0 <==> a == b
    ensures DayNumber(a) == DayNumber(b) <==> a == b
  {
    if a.year < b.year {
      assert a.year * 13 + a.month < b.year * 13 + b.month;
    } else if a.year > b.year {
      assert a.year * 13 + a.month > b.year * 13 + b.month;
    }
  }

  /** An expense row. `id` is null until the repository assigns it; `owner`
      is the id of the submitting user, when one is recorded. */
  datatype Expense = Expense(
    id: Option<int>,
    amount: Cents,
    category: string,
    description: string,
    date: Date,
    approvalStatus: Status,
    approvalLevel: Option<Level>,
    priority: Option<string>,
    comments: Option<string>,
    attachment: Option<seq<bv8>>,
    attachmentType: Option<string>,
    receiptUrl: Option<string>,
    owner: Option<int>)

  /** `new Expense()` followed by the setters every creation path calls for
      the required columns; the field initialisers give PENDING and MANAGER. */
  function NewExpense(amount: Cents, category: string, description: string, date: Date): (e: Expense)
    ensures e.approvalStatus == PENDING && e.approvalLevel == Some(MANAGER)
    ensures e.priority.None? && e.id.None?
    ensures e.attachment.None? && e.attachmentType.None? && e.receiptUrl.None? && e.owner.None?
    ensures e.amount == amount && e.category == category && e.description == description && e.date == date
  {
    Expense(None, amount, category, description, date, PENDING, Some(MANAGER),
            None, None, None, None, None, None)
  }
}

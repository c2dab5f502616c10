/** The dashboard aggregates (services/DashboardService.java): totals,
    per-status sums, per-category and per-month sums, the five most recent
    expenses, and per-status counts. */
module DashboardService {

  import opened Wrappers
  import opened Expenses
  import opened Sequences
  import ExpenseService

  /** `mapToDouble(Expense::getAmount).sum()`. */
  function Total(es: seq<Expense>): Cents {
    if es == [] then 0 else es[0].amount + Total(es[1..])
  }

  lemma {:induction false} TotalAppend(a: seq<Expense>, b: seq<Expense>)
    ensures Total(a + b) == Total(a) + Total(b)
  {
    if a == [] {
      assert a + b == b;
    } else {
      assert (a + b)[1..] == a[1..] + b;
      TotalAppend(a[1..], b);
    }
  }

  function HasStatus(s: Status): Expense -> bool {
    (e: Expense) => e.approvalStatus == s
  }

  /** `calculateExpensesByStatus`. */
  function SumByStatus(es: seq<Expense>, s: Status): Cents {
    Total(Filter(es, HasStatus(s)))
  }

  /** Every expense has exactly one status, so the three status sums add up
      to the total. */
  lemma {:induction false} StatusSumsMakeTotal(es: seq<Expense>)
    ensures SumByStatus(es, PENDING) + SumByStatus(es, APPROVED) + SumByStatus(es, REJECTED) == Total(es)
  {
    if es != [] {
      StatusSumsMakeTotal(es[1..]);
      var e := es[0];
      forall s | true
        ensures Total(Filter(es, HasStatus(s))) == (if e.approvalStatus == s then e.amount else 0) + Total(Filter(es[1..], HasStatus(s)))
      {
        TotalAppend(if HasStatus(s)(e) then [e] else [], Filter(es[1..], HasStatus(s)));
      }
    }
  }

  /** The condition of `groupingBy(keyOf)` for one group. */
  function KeyIs<K(==)>(keyOf: Expense -> K, k: K): Expense -> bool {
    (e: Expense) => keyOf(e) == k
  }

  /** The keys that occur in a list. */
  function KeySet<K>(es: seq<Expense>, keyOf: Expense -> K): set<K> {
    if es == [] then {} else {keyOf(es[0])} + KeySet(es[1..], keyOf)
  }

  lemma {:induction false} KeySetMembers<K>(es: seq<Expense>, keyOf: Expense -> K, k: K)
    ensures k in KeySet(es, keyOf) <==> exists i :: 0 <= i < |es| && keyOf(es[i]) == k
  {
    if es != [] {
      KeySetMembers(es[1..], keyOf, k);
      if exists i :: 0 <= i < |es| && keyOf(es[i]) == k {
        var i :| 0 <= i < |es| && keyOf(es[i]) == k;
        if i > 0 {
          assert keyOf(es[1..][i - 1]) == k;
        }
      }
      if exists i :: 0 <= i < |es[1..]| && keyOf(es[1..][i]) == k {
        var i :| 0 <= i < |es[1..]| && keyOf(es[1..][i]) == k;
        assert keyOf(es[i + 1]) == k;
      }
    }
  }

  /** A key that does not occur selects nothing. */
  lemma {:induction false} AbsentKeySelectsNothing<K>(es: seq<Expense>, keyOf: Expense -> K, k: K)
    requires k !in KeySet(es, keyOf)
    ensures Filter(es, KeyIs(keyOf, k)) == []
  {
    if es != [] {
      AbsentKeySelectsNothing(es[1..], keyOf, k);
    }
  }

  /** `groupingBy(keyOf, summingDouble(getAmount))`: one entry per key that
      occurs (its value is given by GroupSumAt). */
  function GroupSum<K(==)>(es: seq<Expense>, keyOf: Expense -> K): (m: map<K, Cents>)
    ensures m.Keys == KeySet(es, keyOf)
  {
    if es == [] then map[]
    else
      var rest := GroupSum(es[1..], keyOf);
      var k := keyOf(es[0]);
      rest[k := es[0].amount + if k in rest then rest[k] else 0]
  }

  /** Each group holds the total of the expenses with its key. */
  lemma {:induction false} GroupSumAt<K>(es: seq<Expense>, keyOf: Expense -> K, j: K)
    requires j in GroupSum(es, keyOf)
    ensures GroupSum(es, keyOf)[j] == Total(Filter(es, KeyIs(keyOf, j)))
  {
    var rest := GroupSum(es[1..], keyOf);
    var k := keyOf(es[0]);
    var head := if KeyIs(keyOf, j)(es[0]) then [es[0]] else [];
    TotalAppend(head, Filter(es[1..], KeyIs(keyOf, j)));
    if j in rest {
      GroupSumAt(es[1..], keyOf, j);
    } else {
      AbsentKeySelectsNothing(es[1..], keyOf, j);
    }
  }

  function CategoryOf(e: Expense): string {
    e.category
  }

  /** `calculateExpensesByCategory`. */
  function ExpensesByCategory(es: seq<Expense>): (m: map<string, Cents>)
    ensures forall c :: c in m <==> exists i :: 0 <= i < |es| && es[i].category == c
    ensures forall c :: c in m ==> m[c] == Total(Filter(es, KeyIs(CategoryOf, c)))
  {
    var m := GroupSum(es, CategoryOf);
    assert forall c :: c in m <==> exists i :: 0 <= i < |es| && es[i].category == c by {
      forall c ensures c in m <==> exists i :: 0 <= i < |es| && es[i].category == c {
        KeySetMembers(es, CategoryOf, c);
      }
    }
    assert forall c :: c in m ==> m[c] == Total(Filter(es, KeyIs(CategoryOf, c))) by {
      forall c | c in m ensures m[c] == Total(Filter(es, KeyIs(CategoryOf, c))) {
        GroupSumAt(es, CategoryOf, c);
      }
    }
    m
  }

  /** The summary the dashboard shows of an expense; the date stays a
      (year, month, day) triple instead of its "yyyy-MM-dd" rendering. */
  datatype ExpenseSummary = ExpenseSummary(
    id: Option<int>, amount: Cents, category: string, description: string,
    date: Date, status: string, priority: Option<string>)

  function Summary(e: Expense): ExpenseSummary {
    ExpenseSummary(e.id, e.amount, e.category, e.description, e.date, StatusName(e.approvalStatus), e.priority)
  }

  function DateKey(e: Expense): int {
    DayNumber(e.date)
  }

  /** `getRecentExpenses`: the stable sort by date, newest first, limited to five. */
  function RecentExpenses(es: seq<Expense>): (r: seq<ExpenseSummary>)
    ensures |r| == if |es| < 5 then |es| else 5
    ensures forall i :: 0 <= i < |r| ==> r[i] == Summary(SortDesc(es, DateKey)[i])
    ensures forall i, j :: 0 <= i < j < |r| ==> CompareDates(r[i].date, r[j].date) >= 0
  {
    var newest := Take(SortDesc(es, DateKey), 5);
    var r := seq(|newest|, i requires 0 <= i < |newest| => Summary(newest[i]));
    assert forall i, j :: 0 <= i < j < |r| ==> CompareDates(r[i].date, r[j].date) >= 0 by {
      forall i, j | 0 <= i < j < |r| ensures CompareDates(r[i].date, r[j].date) >= 0 {
        DayNumberOrdersDates(r[i].date, r[j].date);
      }
    }
    r
  }

  /** Every recent entry summarises an expense of the input list. */
  lemma RecentComesFromInput(es: seq<Expense>)
    ensures forall i :: 0 <= i < |RecentExpenses(es)| ==> SortDesc(es, DateKey)[i] in es
  {
    var sorted := SortDesc(es, DateKey);
    forall i | 0 <= i < |RecentExpenses(es)| ensures sorted[i] in es {
      assert sorted[i] in multiset(sorted);
    }
  }

  datatype YearMonth = YearMonth(year: int, month: Month)

  function MonthOf(e: Expense): YearMonth {
    YearMonth(e.date.year, e.date.month)
  }

  /** The year the month map is padded for: the first expense's, or the
      current year (a parameter: the clock) when there is none. */
  function PaddingYear(es: seq<Expense>, currentYear: int): int {
    if |es| == 0 then currentYear else es[0].date.year
  }

  /** The month map after padding: the per-month totals, untouched, plus a
      zero for every month of `year` that had no expense. */
  ghost predicate PaddedMonths(es: seq<Expense>, year: int, monthly: map<YearMonth, Cents>) {
    var grouped := GroupSum(es, MonthOf);
    && (forall k :: k in monthly <==> k in grouped || k.year == year)
    && (forall k :: k in grouped ==> monthly[k] == grouped[k])
    && (forall k :: k in monthly && k !in grouped ==> monthly[k] == 0)
  }

  /** `calculateMonthlyExpenses`. */
  method CalculateMonthlyExpenses(es: seq<Expense>, currentYear: int) returns (monthly: map<YearMonth, Cents>)
    ensures PaddedMonths(es, PaddingYear(es, currentYear), monthly)
    ensures forall m: Month :: YearMonth(PaddingYear(es, currentYear), m) in monthly
  {
    var grouped := GroupSum(es, MonthOf);
    monthly := grouped;
    var year := if |es| == 0 then currentYear else es[0].date.year;
    for m := 1 to 13
      invariant forall k :: k in monthly <==> k in grouped || (k.year == year && k.month < m)
      invariant forall k :: k in grouped ==> monthly[k] == grouped[k]
      invariant forall k :: k in monthly && k !in grouped ==> monthly[k] == 0
    {
      var key := YearMonth(year, m);
      if key !in monthly {
        monthly := monthly[key := 0];
      }
    }
  }

  /** `ExpenseStatus.values()`, in declaration order. */
  const AllStatuses: seq<Status> := [PENDING, APPROVED, REJECTED]

  function CountStatus(es: seq<Expense>, s: Status): nat {
    |Filter(es, HasStatus(s))|
  }

  ghost predicate CountsByStatus(es: seq<Expense>, counts: map<string, int>) {
    && counts.Keys == {"PENDING", "APPROVED", "REJECTED"}
    && forall s :: counts[StatusName(s)] == CountStatus(es, s)
  }

  /** `calculateStatusCounts`: one entry per status name. */
  method CalculateStatusCounts(es: seq<Expense>) returns (counts: map<string, int>)
    ensures CountsByStatus(es, counts)
  {
    counts := map[];
    for i := 0 to |AllStatuses|
      invariant counts.Keys == set j | 0 <= j < i :: StatusName(AllStatuses[j])
      invariant forall j :: 0 <= j < i ==> counts[StatusName(AllStatuses[j])] == CountStatus(es, AllStatuses[j])
    {
      var s := AllStatuses[i];
      counts := counts[StatusName(s) := CountStatus(es, s)];
    }
    assert counts.Keys == {"PENDING", "APPROVED", "REJECTED"} by {
      assert StatusName(AllStatuses[0]) == "PENDING";
      assert StatusName(AllStatuses[1]) == "APPROVED";
      assert StatusName(AllStatuses[2]) == "REJECTED";
    }
    forall s ensures counts[StatusName(s)] == CountStatus(es, s) {
      match s
      case PENDING => assert AllStatuses[0] == s;
      case APPROVED => assert AllStatuses[1] == s;
      case REJECTED => assert AllStatuses[2] == s;
    }
  }

  /** The per-status counts add up to the number of expenses. */
  lemma {:induction false} StatusCountsCoverAll(es: seq<Expense>)
    ensures CountStatus(es, PENDING) + CountStatus(es, APPROVED) + CountStatus(es, REJECTED) == |es|
  {
    if es != [] {
      StatusCountsCoverAll(es[1..]);
    }
  }

  /** `DashboardDTO`. */
  datatype Dashboard = Dashboard(
    totalExpenses: Cents,
    pendingExpenses: Cents,
    approvedExpenses: Cents,
    rejectedExpenses: Cents,
    expensesByCategory: map<string, Cents>,
    recentExpenses: seq<ExpenseSummary>,
    monthlyExpenses: map<YearMonth, Cents>,
    statusCounts: map<string, int>)

  ghost predicate DashboardOf(es: seq<Expense>, currentYear: int, d: Dashboard) {
    && d.totalExpenses == Total(es)
    && d.pendingExpenses == SumByStatus(es, PENDING)
    && d.approvedExpenses == SumByStatus(es, APPROVED)
    && d.rejectedExpenses == SumByStatus(es, REJECTED)
    && d.expensesByCategory == ExpensesByCategory(es)
    && d.recentExpenses == RecentExpenses(es)
    && PaddedMonths(es, PaddingYear(es, currentYear), d.monthlyExpenses)
    && CountsByStatus(es, d.statusCounts)
  }

  /** `getDashboardData(expenses)`: the DTO filled field by field. */
  method GetDashboardDataOf(es: seq<Expense>, currentYear: int) returns (d: Dashboard)
    ensures DashboardOf(es, currentYear, d)
    ensures d.pendingExpenses + d.approvedExpenses + d.rejectedExpenses == d.totalExpenses
  {
    var monthly := CalculateMonthlyExpenses(es, currentYear);
    var counts := CalculateStatusCounts(es);
    d := Dashboard(Total(es), SumByStatus(es, PENDING), SumByStatus(es, APPROVED), SumByStatus(es, REJECTED),
                   ExpensesByCategory(es), RecentExpenses(es), monthly, counts);
    StatusSumsMakeTotal(es);
  }

  /** `getDashboardData()`: the same over every stored expense. */
  method GetDashboardData(service: ExpenseService.Service, currentYear: int) returns (d: Dashboard)
    ensures DashboardOf(service.All(), currentYear, d)
  {
    d := GetDashboardDataOf(service.All(), currentYear);
  }
}

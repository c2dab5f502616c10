/** The employee dashboard (controller/EmployeeDashboardController.java): the
    dashboard over the current user's expenses, and the user's approved ones. */
module EmployeeDashboardController {

  import opened Wrappers
  import opened Http
  import opened Expenses
  import opened Sequences
  import opened Users
  import opened ExpenseService
  import opened DashboardService

  /** `getEmployeeDashboard`: the dashboard over every expense the user owns,
      whatever its status. */
  method GetEmployeeDashboard(users: UserRepository, expenses: Service, email: string, currentYear: int)
    returns (r: Response<Dashboard>)
    ensures IndexOfEmail(users.users, email).None? ==> r == Fail(BadRequest, "")
    ensures IndexOfEmail(users.users, email).Some? ==>
              r.Ok? && DashboardOf(expenses.AllByUser(users.users[IndexOfEmail(users.users, email).value].id), currentYear, r.body)
  {
    var found := IndexOfEmail(users.users, email);
    if found.None? {
      return Fail(BadRequest, "");
    }
    var d := GetDashboardDataOf(expenses.AllByUser(users.users[found.value].id), currentYear);
    r := Ok(d);
  }

  /** `getEmployeeExpenses`: the user's expenses whose status is APPROVED, in
      the order `getAllByUser` gives them. */
  method GetApprovedExpenses(users: UserRepository, expenses: Service, email: string) returns (r: Response<seq<Expense>>)
    ensures IndexOfEmail(users.users, email).None? ==> r == Fail(BadRequest, "")
    ensures IndexOfEmail(users.users, email).Some? ==>
              var uid := users.users[IndexOfEmail(users.users, email).value].id;
              && r == Ok(Filter(expenses.All(), Both(IsOwnedBy(uid), HasStatus(APPROVED))))
              && forall e :: e in r.body <==> e in expenses.All() && e.owner == Some(uid) && e.approvalStatus == APPROVED
  {
    var found := IndexOfEmail(users.users, email);
    if found.None? {
      return Fail(BadRequest, "");
    }
    var uid := users.users[found.value].id;
    var approved := Filter(expenses.AllByUser(uid), HasStatus(APPROVED));
    FilterFilter(expenses.All(), IsOwnedBy(uid), HasStatus(APPROVED));
    r := Ok(approved);
  }
}

/** The employee's own expense list (controller/EmployeeExpenseController.java).
    The current user is the one the principal's email resolves to. */
module EmployeeExpenseController {

  import opened Wrappers
  import opened Http
  import opened Expenses
  import opened Sequences
  import opened Users
  import opened ExpenseService

  /** `getEmployeeExpenses`: 400 with no body for an unknown user, otherwise
      the stored expenses whose owner is that user, in repository order;
      expenses with no owner never match. */
  method GetEmployeeExpenses(users: UserRepository, expenses: Service, email: string) returns (r: Response<seq<Expense>>)
    ensures IndexOfEmail(users.users, email).None? ==> r == Fail(BadRequest, "")
    ensures IndexOfEmail(users.users, email).Some? ==>
              var uid := users.users[IndexOfEmail(users.users, email).value].id;
              && r == Ok(Filter(expenses.All(), IsOwnedBy(uid)))
              && forall e :: e in r.body <==> e in expenses.All() && e.owner == Some(uid)
  {
    var found := IndexOfEmail(users.users, email);
    if found.None? {
      return Fail(BadRequest, "");
    }
    var uid := users.users[found.value].id;
    r := Ok(Filter(expenses.All(), IsOwnedBy(uid)));
  }
}

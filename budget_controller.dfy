/** The monthly budget setting of controller/BudgetController.java: one
    process-wide cell, read and overwritten by two endpoints. */
module BudgetController {

  import opened Http
  import opened Expenses

  /** 50000.00 in cents. */
  const InitialBudget: Cents := 5000000

  const UpdatedPrefix := "Monthly budget updated successfully to "

  /** The reply to a successful update: the fixed prefix followed by the new value. */
  datatype Updated = Updated(prefix: string, value: Cents)

  class Register {
    var budget: Cents

    constructor ()
      ensures budget == InitialBudget
    {
      budget := InitialBudget;
    }

    /** `getMonthlyBudget`: the current value under the key "budget". */
    method GetMonthlyBudget() returns (r: map<string, Cents>)
      ensures r.Keys == {"budget"} && r["budget"] == budget
    {
      r := map["budget" := budget];
    }

    /** `setMonthlyBudget`: any provided value is stored, whatever its sign;
        a request without one is refused and the cell keeps its value. */
    method SetMonthlyBudget(request: map<string, Cents>) returns (r: Response<Updated>)
      modifies this
      ensures "budget" in request ==>
                budget == request["budget"] && r == Ok(Updated(UpdatedPrefix, request["budget"]))
      ensures "budget" !in request ==>
                budget == old(budget) && r == Fail(BadRequest, "Budget value not provided.")
    {
      if "budget" in request {
        budget := request["budget"];
        r := Ok(Updated(UpdatedPrefix, budget));
      } else {
        r := Fail(BadRequest, "Budget value not provided.");
      }
    }

    /** A value stored by an update is what the next read returns. */
    method SetThenGet(request: map<string, Cents>) returns (r: map<string, Cents>)
      modifies this
      ensures "budget" in r
      ensures "budget" in request ==> r["budget"] == request["budget"]
      ensures "budget" !in request ==> r["budget"] == old(budget)
    {
      var _ := SetMonthlyBudget(request);
      r := GetMonthlyBudget();
    }
  }
}

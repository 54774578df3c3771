/** The pure part of the income service: the month check, the validation of
    a request and its own `computeDerived`, which clamps where the expense
    service's does not. */
module IncomeService {
  import opened Values
  import opened Text
  import opened Dates
  import opened Rounding
  import opened Tables
  import ExpenseService

  /** `isValidMonth`, `/^\d{4}-\d{2}-01$/.test(month)`; the test reads its
      argument as a string. */
  predicate IsValidMonth(month: Value)
  {
    IsMonthKey(JsString(month))
  }

  /** The income check is looser than the expense-side one: a thirteenth
      month passes. */
  lemma {:induction false} LooseMonthCheck()
    ensures IsValidMonth(Str("2026-13-01"))
    ensures !IsStrictMonthKey("2026-13-01")
  {
    assert "2026-13-01"[..4] == "2026" && "2026-13-01"[5..7] == "13" && "2026-13-01"[8..] == "01";
  }

  /** `computeDerived` of the income service: all three columns are 0 unless
      the income is positive; otherwise savings are income minus expense and
      the rates are the percentages rounded to two decimals. */
  function IncomeDerived(income: real, expense: real): (d: Derived)
    ensures income <= 0.0 ==> d == Derived(0.0, 0.0, 0.0)
    ensures income > 0.0 ==> d.savings == income - expense
    ensures income > 0.0 ==> d.savingsRate == Round2((income - expense) / income * 100.0)
    ensures income > 0.0 ==> d.expenseRatio == Round2(expense / income * 100.0)
  {
    if income <= 0.0 then Derived(0.0, 0.0, 0.0)
    else
      var savings := income - expense;
      Derived(savings, Round2(savings / income * 100.0), Round2(expense / income * 100.0))
  }

  /** The two `computeDerived` functions disagree on savings whenever the
      income is not positive and some expense is recorded. */
  lemma {:induction false} DerivedVariantsDisagree(income: real, expense: real)
    requires income <= 0.0 && expense != income
    ensures IncomeDerived(income, expense).savings != ExpenseService.ExpenseDerived(income, expense).savings
  {
  }

  /** With a positive income they agree on savings and differ on each rate
      by the display rounding only. */
  lemma {:induction false} DerivedVariantsAgree(income: real, expense: real)
    requires income > 0.0
    ensures IncomeDerived(income, expense).savings == ExpenseService.ExpenseDerived(income, expense).savings
    ensures -1.0 / 200.0 <= IncomeDerived(income, expense).savingsRate
                          - ExpenseService.ExpenseDerived(income, expense).savingsRate <= 1.0 / 200.0
    ensures -1.0 / 200.0 <= IncomeDerived(income, expense).expenseRatio
                          - ExpenseService.ExpenseDerived(income, expense).expenseRatio <= 1.0 / 200.0
  {
  }

  const InvalidAmount := "Invalid income amount"
  const BadMonth := "Month must be YYYY-MM-01"

  /** The TypeError of destructuring `{ amount, month }` from null or undefined. */
  function DestructureError(body: Value): string
  {
    "Cannot destructure property 'amount' of 'undefined' as it is " + (if body.Null? then "null." else "undefined.")
  }

  /** The checks of `insertIncome`, in order: the amount must be a positive
      number, then the month must pass `isValidMonth`. On success: the amount
      and the month key. */
  function ValidateIncome(body: Value): (r: Result<(real, string)>)
    ensures (body.Null? || body.Undefined?) ==> r == Err(DestructureError(body))
    ensures !(body.Null? || body.Undefined?) && !(Field(body, "amount").Num? && Field(body, "amount").x > 0.0)
            ==> r == Err(InvalidAmount)
    ensures (!(body.Null? || body.Undefined?) && Field(body, "amount").Num? && Field(body, "amount").x > 0.0
             && !IsValidMonth(Field(body, "month")))
            ==> r == Err(BadMonth)
    ensures r.Ok? <==> !(body.Null? || body.Undefined?)
                       && Field(body, "amount").Num? && Field(body, "amount").x > 0.0
                       && IsValidMonth(Field(body, "month"))
    ensures r.Ok? ==> r.value.0 == Field(body, "amount").x && r.value.0 > 0.0
                      && r.value.1 == JsString(Field(body, "month")) && IsMonthKey(r.value.1)
  {
    if body.Null? || body.Undefined? then Err(DestructureError(body))
    else
      var amount, month := Field(body, "amount"), Field(body, "month");
      if !(amount.Num? && amount.x > 0.0) then Err(InvalidAmount)
      else if !IsValidMonth(month) then Err(BadMonth)
      else Ok((amount.x, JsString(month)))
  }
}

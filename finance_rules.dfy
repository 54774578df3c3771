/** The finance rules of the analysis: the totals and rates of a set of
    expenses against an income, and the per-category breakdown. */
module FinanceRules {
  import opened Values
  import opened Groups
  import opened Rounding
  import opened Tables
  import IncomeService
  import ExpenseService

  datatype FinanceMetrics = FinanceMetrics(
    totalIncome: real,
    totalExpense: real,
    savings: real,
    savingsRate: real,
    expenseRatio: real)

  /** `computeFinanceMetrics(income, expenses)`: the total of the amounts,
      savings as income minus that total, and both rates as percentages of a
      positive income rounded to two decimals, 0 otherwise. */
  function ComputeFinanceMetrics(income: real, rows: seq<ExpenseRow>): (m: FinanceMetrics)
    ensures m.totalIncome == income
    ensures m.totalExpense == Sum(Amounts(rows))
    ensures m.savings == income - m.totalExpense
    ensures income <= 0.0 ==> m.savingsRate == 0.0 && m.expenseRatio == 0.0
    ensures income > 0.0 ==>
              && -1.0 / 200.0 <= m.savingsRate - m.savings / income * 100.0 <= 1.0 / 200.0
              && -1.0 / 200.0 <= m.expenseRatio - m.totalExpense / income * 100.0 <= 1.0 / 200.0
  {
    var totalExpense := Sum(Amounts(rows));
    var savings := income - totalExpense;
    FinanceMetrics(
      income,
      totalExpense,
      savings,
      if income > 0.0 then Round2(savings / income * 100.0) else 0.0,
      if income > 0.0 then Round2(totalExpense / income * 100.0) else 0.0)
  }

  /** With a positive income the metrics carry exactly the columns the income
      service's `computeDerived` writes for the same totals. */
  lemma {:induction false} MetricsMatchIncomeDerived(income: real, rows: seq<ExpenseRow>)
    requires income > 0.0
    ensures var m := ComputeFinanceMetrics(income, rows);
            Derived(m.savings, m.savingsRate, m.expenseRatio) == IncomeService.IncomeDerived(income, m.totalExpense)
  {
  }

  /** With no positive income the metrics keep the negative savings the
      expense service's `computeDerived` writes, not the income service's 0. */
  lemma {:induction false} MetricsMatchExpenseDerivedWithoutIncome(income: real, rows: seq<ExpenseRow>)
    requires income <= 0.0
    ensures var m := ComputeFinanceMetrics(income, rows);
            Derived(m.savings, m.savingsRate, m.expenseRatio) == ExpenseService.ExpenseDerived(income, m.totalExpense)
  {
  }

  lemma {:induction false} AmountsOfCategoryEntries(rows: seq<ExpenseRow>)
    ensures AmountsOf(CategoryEntries(rows)) == Amounts(rows)
  {
  }

  /** `computeCategoryBreakdown(expenses)`: the loop sums each category's
      amounts into an object, whose entries become the breakdown. One entry
      per category that occurs, in order of first occurrence, holding the
      category's sum; the entries add up to the metrics' total expense. */
  method ComputeCategoryBreakdown(rows: seq<ExpenseRow>) returns (breakdown: seq<Entry<string>>)
    ensures breakdown == Grouped(CategoryEntries(rows))
    ensures KeysOf(breakdown) == Dedup(KeysOf(CategoryEntries(rows)))
    ensures Distinct(KeysOf(breakdown))
    ensures forall c :: c in KeysOf(breakdown) <==> exists i | 0 <= i < |rows| :: rows[i].categoryCode == c
    ensures forall i | 0 <= i < |breakdown| :: breakdown[i].amount == Total(CategoryEntries(rows), breakdown[i].key)
    ensures forall income :: Sum(AmountsOf(breakdown)) == ComputeFinanceMetrics(income, rows).totalExpense
  {
    breakdown := GroupSum(CategoryEntries(rows));
    CategoryGroups(rows);
    AmountsOfCategoryEntries(rows);
  }
}

/** The two tables, `expenses` and `monthly_summary`, and the two services that
    write them: `insertExpenses` adds a validated batch and folds its month
    totals into the summaries; `insertIncome` adds income to one month. */
module Store {
  import opened Values
  import opened Dates
  import opened Groups
  import opened Tables
  import opened ExpenseService
  import opened IncomeService

  const InsertFailed := "Failed to insert expenses"

  /** What `insertExpenses` returns. */
  datatype InsertReport = InsertReport(inserted: nat, monthsAffected: nat)

  /** CASE 2 of the summary update: the month's expense grows by `delta`, the
      derived columns are recomputed, income and anomaly count are kept. */
  function Grown(s: Summary, delta: real): (t: Summary)
    ensures t.month == s.month && t.totalIncome == s.totalIncome && t.anomalyCount == s.anomalyCount
    ensures t.totalExpense == s.totalExpense + delta
    ensures Derived(t.savings, t.savingsRate, t.expenseRatio) == ExpenseDerived(s.totalIncome, s.totalExpense + delta)
  {
    var total := s.totalExpense + delta;
    var d := ExpenseDerived(s.totalIncome, total);
    s.(totalExpense := total, savings := d.savings, savingsRate := d.savingsRate, expenseRatio := d.expenseRatio)
  }

  /** CASE 1: a new row with no income, the delta as expense and no anomalies. */
  function Fresh(month: string, delta: real): (t: Summary)
    ensures t.month == month && t.totalIncome == 0.0 && t.totalExpense == delta && t.anomalyCount == 0
    ensures t.savings == -delta && t.savingsRate == 0.0 && t.expenseRatio == 0.0
  {
    var d := ExpenseDerived(0.0, delta);
    Summary(month, 0.0, delta, d.savings, d.savingsRate, d.expenseRatio, 0)
  }

  function ExpenseMonthUpdate(table: map<string, Summary>, month: string, delta: real): map<string, Summary>
  {
    if month in table then table[month := Grown(table[month], delta)] else table[month := Fresh(month, delta)]
  }

  /** The summary table after the update loop has processed `deltas` in order. */
  function ApplyExpenseDeltas(table: map<string, Summary>, deltas: seq<Entry<string>>): map<string, Summary>
  {
    if deltas == [] then table
    else
      var last := deltas[|deltas| - 1];
      ExpenseMonthUpdate(ApplyExpenseDeltas(table, deltas[..|deltas| - 1]), last.key, last.amount)
  }

  /** The month-by-month effect of folding per-month deltas into the table:
      the months of the deltas are grown or created, no other month changes. */
  ghost predicate ExpenseEffect(before: map<string, Summary>, after: map<string, Summary>, deltas: seq<Entry<string>>)
  {
    && (forall m :: m in after <==> m in before || m in KeysOf(deltas))
    && (forall m | m in after && m !in KeysOf(deltas) :: after[m] == before[m])
    && (forall m | m in KeysOf(deltas) && m in before :: after[m] == Grown(before[m], Lookup(deltas, m)))
    && (forall m | m in KeysOf(deltas) && m !in before :: after[m] == Fresh(m, Lookup(deltas, m)))
  }

  lemma {:induction false} LookupAppend<K>(a: seq<Entry<K>>, e: Entry<K>, k: K)
    ensures Lookup(a + [e], k) == if k in KeysOf(a) then Lookup(a, k) else if e.key == k then e.amount else 0.0
  {
    if a != [] {
      assert (a + [e])[1..] == a[1..] + [e];
      assert KeysOf(a) == [a[0].key] + KeysOf(a[1..]);
      LookupAppend(a[1..], e, k);
    }
  }

  lemma {:induction false} ApplyExpenseDeltasEffect(table: map<string, Summary>, deltas: seq<Entry<string>>)
    requires Distinct(KeysOf(deltas))
    ensures ExpenseEffect(table, ApplyExpenseDeltas(table, deltas), deltas)
  {
    if deltas != [] {
      var init, last := deltas[..|deltas| - 1], deltas[|deltas| - 1];
      assert deltas == init + [last];
      assert KeysOf(init) == KeysOf(deltas)[..|init|];
      assert KeysOf(deltas) == KeysOf(init) + [last.key];
      assert last.key !in KeysOf(init);
      ApplyExpenseDeltasEffect(table, init);
      ExpenseEffectStep(table, ApplyExpenseDeltas(table, init), init, last);
    }
  }

  /** One more month delta, for a month not seen before, keeps the effect. */
  lemma {:induction false} ExpenseEffectStep(table: map<string, Summary>, before: map<string, Summary>,
                                              init: seq<Entry<string>>, last: Entry<string>)
    requires ExpenseEffect(table, before, init) && last.key !in KeysOf(init)
    ensures ExpenseEffect(table, ExpenseMonthUpdate(before, last.key, last.amount), init + [last])
  {
    var deltas := init + [last];
    assert KeysOf(deltas) == KeysOf(init) + [last.key];
    forall m ensures Lookup(deltas, m) == if m in KeysOf(init) then Lookup(init, m) else if last.key == m then last.amount else 0.0 {
      LookupAppend(init, last, m);
    }
  }

  /** The update of `insertIncome` for month `month`. */
  function IncomeMonthUpdate(table: map<string, Summary>, month: string, amount: real): (t: map<string, Summary>)
    ensures t.Keys == table.Keys + {month}
    ensures forall m | m in table && m != month :: t[m] == table[m]
    ensures month !in table ==>
              t[month].totalIncome == amount && t[month].totalExpense == 0.0 && t[month].anomalyCount == 0
    ensures month in table ==>
              && t[month].totalIncome == table[month].totalIncome + amount
              && t[month].totalExpense == table[month].totalExpense
              && t[month].anomalyCount == table[month].anomalyCount
    ensures t[month].month == (if month in table then table[month].month else month)
    ensures Derived(t[month].savings, t[month].savingsRate, t[month].expenseRatio)
            == IncomeDerived(t[month].totalIncome, t[month].totalExpense)
  {
    table[month := IncomeRow(table, month, amount)]
  }

  /** The month's row after the update: a new row holding only the income, or
      the old row with its income grown; the derived columns recomputed. */
  function IncomeRow(table: map<string, Summary>, month: string, amount: real): Summary
  {
    if month !in table then
      var d := IncomeDerived(amount, 0.0);
      Summary(month, amount, 0.0, d.savings, d.savingsRate, d.expenseRatio, 0)
    else
      var s := table[month];
      var income := s.totalIncome + amount;
      var d := IncomeDerived(income, s.totalExpense);
      s.(totalIncome := income, savings := d.savings, savingsRate := d.savingsRate, expenseRatio := d.expenseRatio)
  }

  /** Rows as the store numbers them, from `first` on. */
  function Numbered(rows: seq<ExpenseRow>, first: nat): (es: seq<Expense>)
    ensures |es| == |rows| && forall i | 0 <= i < |rows| :: es[i] == Expense(first + i, rows[i])
  {
    if rows == [] then [] else Numbered(rows[..|rows| - 1], first) + [Expense(first + |rows| - 1, rows[|rows| - 1])]
  }

  /** A summary row whose derived columns agree with its totals: savings are
      income minus expense, rates are 0 while there is no income and are
      otherwise the percentages up to the two-decimal display rounding. */
  ghost predicate Consistent(s: Summary)
  {
    && s.totalIncome >= 0.0
    && s.savings == s.totalIncome - s.totalExpense
    && (s.totalIncome == 0.0 ==> s.savingsRate == 0.0 && s.expenseRatio == 0.0)
    && (s.totalIncome > 0.0 ==>
          && -1.0 / 200.0 <= s.savingsRate - s.savings / s.totalIncome * 100.0 <= 1.0 / 200.0
          && -1.0 / 200.0 <= s.expenseRatio - s.totalExpense / s.totalIncome * 100.0 <= 1.0 / 200.0)
  }

  /** A row as `insertExpenses` writes it. */
  ghost predicate StoredRow(row: ExpenseRow)
  {
    && row.amount > 0.0
    && IsValidCategory(row.categoryCode)
    && row.isDiscretionary == InferDiscretionary(row.categoryCode)
    && IsStoreDate(row.transactionDate)
    && row.source == "manual"
  }

  /** Expenses are numbered in insertion order and were normalised on the way in. */
  ghost predicate RowsStored(expenses: seq<Expense>)
  {
    forall i | 0 <= i < |expenses| :: expenses[i].id == i && StoredRow(expenses[i].row)
  }

  /** Every summary row is keyed by its month, a date the `month` column
      accepts, and is consistent. */
  ghost predicate SummariesConsistent(summaries: map<string, Summary>)
  {
    forall m | m in summaries ::
      IsMonthKey(m) && IsStoreDate(m) && summaries[m].month == m && Consistent(summaries[m])
  }

  /** Every expense's month has a summary row. */
  ghost predicate MonthsCovered(expenses: seq<Expense>, summaries: map<string, Summary>)
  {
    forall i | 0 <= i < |expenses| ::
      IsDateShaped(expenses[i].row.transactionDate) && MonthStart(expenses[i].row.transactionDate) in summaries
  }

  /** Each summary row's total expense is the sum of the expenses of its month. */
  ghost predicate TotalsMatch(expenses: seq<Expense>, summaries: map<string, Summary>)
    requires AllDated(RowsOf(expenses))
  {
    forall m | m in summaries :: summaries[m].totalExpense == MonthTotal(RowsOf(expenses), m)
  }

  /** The invariant of the two tables. */
  ghost predicate ValidTables(expenses: seq<Expense>, summaries: map<string, Summary>)
  {
    && RowsStored(expenses)
    && SummariesConsistent(summaries)
    && MonthsCovered(expenses, summaries)
    && AllDated(RowsOf(expenses))
    && TotalsMatch(expenses, summaries)
  }

  lemma {:induction false} RowsOfAppend(a: seq<Expense>, b: seq<Expense>)
    ensures RowsOf(a + b) == RowsOf(a) + RowsOf(b)
  {
  }

  lemma {:induction false} RowsOfNumbered(rows: seq<ExpenseRow>, first: nat)
    ensures RowsOf(Numbered(rows, first)) == rows
  {
  }

  lemma {:induction false} NumberedRowsStored(expenses: seq<Expense>, rows: seq<ExpenseRow>)
    requires RowsStored(expenses) && forall i | 0 <= i < |rows| :: StoredRow(rows[i])
    ensures RowsStored(expenses + Numbered(rows, |expenses|))
  {
    var added := Numbered(rows, |expenses|);
    var es := expenses + added;
    forall i | 0 <= i < |es| ensures es[i].id == i && StoredRow(es[i].row) {
      if i >= |expenses| {
        assert added[i - |expenses|] == Expense(i, rows[i - |expenses|]);
      }
    }
  }

  lemma {:induction false} StoredRowsDated(expenses: seq<Expense>)
    requires RowsStored(expenses)
    ensures AllDated(RowsOf(expenses))
  {
  }

  /** A validated batch whose dates the store accepts consists of rows as
      `insertExpenses` writes them. */
  lemma {:induction false} BatchRowsStored(input: Value)
    requires ValidateBatch(input).Ok? && AllStoreDates(ValidateBatch(input).value)
    ensures AllDated(ValidateBatch(input).value)
    ensures forall i | 0 <= i < |ValidateBatch(input).value| :: StoredRow(ValidateBatch(input).value[i])
  {
    var rows := ValidateBatch(input).value;
    forall i | 0 <= i < |rows| ensures StoredRow(rows[i]) {
      assert rows[i] == ValidateEntry(input.items[i]).value;
    }
  }

  /** The months a batch's grouping names are the months of its rows. */
  lemma {:induction false} DeltaKeys(rows: seq<ExpenseRow>, m: string)
    requires AllDated(rows)
    ensures m in KeysOf(Grouped(MonthEntries(rows))) <==>
              exists i | 0 <= i < |rows| :: MonthStart(rows[i].transactionDate) == m
  {
    var items := MonthEntries(rows);
    KeysOfGrouped(items);
    DedupElements(KeysOf(items), m);
    if m in KeysOf(items) {
      var j :| 0 <= j < |items| && KeysOf(items)[j] == m;
      assert MonthStart(rows[j].transactionDate) == m;
    }
    if i :| 0 <= i < |rows| && MonthStart(rows[i].transactionDate) == m {
      assert KeysOf(items)[i] == m;
    }
  }

  /** In the grouping, each month's delta is that month's sum over the batch. */
  lemma {:induction false} DeltaAmounts(items: seq<Entry<string>>, m: string)
    requires m in KeysOf(Grouped(items))
    ensures Lookup(Grouped(items), m) == Total(items, m)
  {
    var deltas := Grouped(items);
    GroupedFacts(items);
    var i :| 0 <= i < |deltas| && deltas[i].key == m;
    LookupDistinct(deltas, i);
  }

  /** What the per-month deltas of a batch are: one per month of the batch,
      each the sum of the batch's amounts in that month; folding them into the
      table has the month-by-month effect `ExpenseEffect`. */
  lemma {:induction false} BatchDeltas(table: map<string, Summary>, rows: seq<ExpenseRow>)
    requires AllDated(rows)
    ensures var deltas := Grouped(MonthEntries(rows));
            && ExpenseEffect(table, ApplyExpenseDeltas(table, deltas), deltas)
            && (forall m :: m in KeysOf(deltas) <==> exists i | 0 <= i < |rows| :: MonthStart(rows[i].transactionDate) == m)
            && (forall m | m in KeysOf(deltas) :: Lookup(deltas, m) == Total(MonthEntries(rows), m))
            && Sum(AmountsOf(deltas)) == Sum(AmountsOf(MonthEntries(rows)))
            && |deltas| == |Dedup(KeysOf(MonthEntries(rows)))|
  {
    var items := MonthEntries(rows);
    var deltas := Grouped(items);
    GroupedFacts(items);
    KeysOfGrouped(items);
    ApplyExpenseDeltasEffect(table, deltas);
    forall m ensures m in KeysOf(deltas) <==> exists i | 0 <= i < |rows| :: MonthStart(rows[i].transactionDate) == m {
      DeltaKeys(rows, m);
    }
    forall m | m in KeysOf(deltas) ensures Lookup(deltas, m) == Total(items, m) {
      DeltaAmounts(items, m);
    }
  }

  lemma {:induction false} GrownConsistent(s: Summary, delta: real)
    requires Consistent(s)
    ensures Consistent(Grown(s, delta))
  {
  }

  lemma {:induction false} EffectConsistent(before: map<string, Summary>, after: map<string, Summary>, deltas: seq<Entry<string>>)
    requires SummariesConsistent(before) && ExpenseEffect(before, after, deltas)
    requires forall m | m in KeysOf(deltas) :: IsMonthKey(m) && IsStoreDate(m)
    ensures SummariesConsistent(after)
  {
    forall m | m in after ensures IsMonthKey(m) && IsStoreDate(m) && after[m].month == m && Consistent(after[m]) {
      if m in KeysOf(deltas) && m in before {
        GrownConsistent(before[m], Lookup(deltas, m));
      }
    }
  }

  /** The expense total a month has after the deltas have been folded in. */
  lemma {:induction false} EffectExpenseAt(before: map<string, Summary>, after: map<string, Summary>, deltas: seq<Entry<string>>, m: string)
    requires ExpenseEffect(before, after, deltas) && m in after
    ensures after[m].totalExpense ==
              if m !in KeysOf(deltas) then before[m].totalExpense
              else if m in before then before[m].totalExpense + Lookup(deltas, m)
              else Lookup(deltas, m)
  {
  }

  lemma {:induction false} EffectTotalAt(beforeRows: seq<ExpenseRow>, before: map<string, Summary>, rows: seq<ExpenseRow>,
                      after: map<string, Summary>, m: string)
    requires AllDated(beforeRows) && AllDated(rows) && m in after
    requires forall i | 0 <= i < |beforeRows| :: MonthStart(beforeRows[i].transactionDate) in before
    requires m in before ==> before[m].totalExpense == MonthTotal(beforeRows, m)
    requires ExpenseEffect(before, after, Grouped(MonthEntries(rows)))
    ensures AllDated(beforeRows + rows)
    ensures after[m].totalExpense == MonthTotal(beforeRows + rows, m)
  {
    var items := MonthEntries(rows);
    var deltas := Grouped(items);
    MonthTotalAppend(beforeRows, rows, m);
    EffectExpenseAt(before, after, deltas, m);
    if m !in KeysOf(deltas) {
      KeysOfGrouped(items);
      DedupElements(KeysOf(items), m);
      TotalAbsent(items, m);
    } else {
      DeltaAmounts(items, m);
      if m !in before {
        MonthTotalEmpty(beforeRows, m);
      }
    }
  }

  lemma {:induction false} EffectTotalFrom(expenses: seq<Expense>, before: map<string, Summary>, rows: seq<ExpenseRow>,
                      after: map<string, Summary>, m: string)
    requires AllDated(RowsOf(expenses)) && AllDated(rows) && m in after
    requires MonthsCovered(expenses, before) && TotalsMatch(expenses, before)
    requires ExpenseEffect(before, after, Grouped(MonthEntries(rows)))
    ensures AllDated(RowsOf(expenses) + rows)
    ensures after[m].totalExpense == MonthTotal(RowsOf(expenses) + rows, m)
  {
    var beforeRows := RowsOf(expenses);
    assert forall i | 0 <= i < |beforeRows| :: MonthStart(beforeRows[i].transactionDate) in before;
    EffectTotalAt(beforeRows, before, rows, after, m);
  }

  lemma {:induction false} EffectTotals(expenses: seq<Expense>, before: map<string, Summary>, rows: seq<ExpenseRow>,
                     after: map<string, Summary>)
    requires AllDated(RowsOf(expenses)) && AllDated(rows)
    requires MonthsCovered(expenses, before) && TotalsMatch(expenses, before)
    requires ExpenseEffect(before, after, Grouped(MonthEntries(rows)))
    ensures AllDated(RowsOf(expenses) + rows)
    ensures forall m | m in after :: after[m].totalExpense == MonthTotal(RowsOf(expenses) + rows, m)
  {
    var beforeRows := RowsOf(expenses);
    MonthTotalAppend(beforeRows, rows, "");
    forall m | m in after ensures after[m].totalExpense == MonthTotal(beforeRows + rows, m) {
      EffectTotalFrom(expenses, before, rows, after, m);
    }
  }

  /** Every month of the batch gets a row, and the rows of the old months stay. */
  lemma {:induction false} EffectCovers(expenses: seq<Expense>, before: map<string, Summary>, rows: seq<ExpenseRow>,
                     after: map<string, Summary>)
    requires MonthsCovered(expenses, before) && AllDated(rows)
    requires ExpenseEffect(before, after, Grouped(MonthEntries(rows)))
    ensures MonthsCovered(expenses + Numbered(rows, |expenses|), after)
  {
    var all := expenses + Numbered(rows, |expenses|);
    forall i | 0 <= i < |all|
      ensures IsDateShaped(all[i].row.transactionDate) && MonthStart(all[i].row.transactionDate) in after
    {
      RowCovered(expenses, before, rows, after, i);
    }
  }

  /** Row `i` of the table after the batch is appended has its month. */
  lemma {:induction false} RowCovered(expenses: seq<Expense>, before: map<string, Summary>, rows: seq<ExpenseRow>,
                                       after: map<string, Summary>, i: nat)
    requires MonthsCovered(expenses, before) && AllDated(rows)
    requires ExpenseEffect(before, after, Grouped(MonthEntries(rows)))
    requires i < |expenses| + |rows|
    ensures var row := (expenses + Numbered(rows, |expenses|))[i].row;
            IsDateShaped(row.transactionDate) && MonthStart(row.transactionDate) in after
  {
    var all := expenses + Numbered(rows, |expenses|);
    if i < |expenses| {
      assert all[i] == expenses[i];
      assert MonthStart(expenses[i].row.transactionDate) in before;
    } else {
      var j := i - |expenses|;
      assert all[i].row == rows[j];
      DeltaKeys(rows, MonthStart(rows[j].transactionDate));
    }
  }

  /** Folding a validated batch into the tables keeps them valid. */
  lemma {:induction false} InsertExpensesKeepsValid(expenses: seq<Expense>, summaries: map<string, Summary>, rows: seq<ExpenseRow>)
    requires ValidTables(expenses, summaries)
    requires AllDated(rows) && forall i | 0 <= i < |rows| :: StoredRow(rows[i])
    ensures ValidTables(expenses + Numbered(rows, |expenses|),
                        ApplyExpenseDeltas(summaries, Grouped(MonthEntries(rows))))
  {
    var expenses' := expenses + Numbered(rows, |expenses|);
    var deltas := Grouped(MonthEntries(rows));
    var after := ApplyExpenseDeltas(summaries, deltas);
    GroupedFacts(MonthEntries(rows));
    ApplyExpenseDeltasEffect(summaries, deltas);
    NumberedRowsStored(expenses, rows);
    StoredRowsDated(expenses');
    assert SummariesConsistent(after) by {
      forall m | m in KeysOf(deltas) ensures IsMonthKey(m) && IsStoreDate(m) {
        DeltaKeys(rows, m);
        var i :| 0 <= i < |rows| && MonthStart(rows[i].transactionDate) == m;
        assert StoredRow(rows[i]);
      }
      EffectConsistent(summaries, after, deltas);
    }
    EffectCovers(expenses, summaries, rows, after);
    assert TotalsMatch(expenses', after) by {
      RowsOfAppend(expenses, Numbered(rows, |expenses|));
      RowsOfNumbered(rows, |expenses|);
      EffectTotals(expenses, summaries, rows, after);
    }
  }

  /** The tables after a validated batch is inserted, and their validity. */
  lemma {:induction false} NextTables(expenses: seq<Expense>, summaries: map<string, Summary>, rows: seq<ExpenseRow>)
      returns (expenses': seq<Expense>, summaries': map<string, Summary>)
    requires ValidTables(expenses, summaries)
    requires AllDated(rows) && forall i | 0 <= i < |rows| :: StoredRow(rows[i])
    ensures expenses' == expenses + Numbered(rows, |expenses|)
    ensures summaries' == ApplyExpenseDeltas(summaries, Grouped(MonthEntries(rows)))
    ensures ValidTables(expenses', summaries')
  {
    InsertExpensesKeepsValid(expenses, summaries, rows);
    expenses', summaries' := expenses + Numbered(rows, |expenses|), ApplyExpenseDeltas(summaries, Grouped(MonthEntries(rows)));
  }

  lemma {:induction false} IncomeConsistent(summaries: map<string, Summary>, month: string, amount: real)
    requires SummariesConsistent(summaries) && IsMonthKey(month) && IsStoreDate(month) && amount > 0.0
    ensures SummariesConsistent(IncomeMonthUpdate(summaries, month, amount))
  {
    var after := IncomeMonthUpdate(summaries, month, amount);
    forall m | m in after ensures IsMonthKey(m) && IsStoreDate(m) && after[m].month == m && Consistent(after[m]) {
      if m == month {
        IncomeRowConsistent(after[m]);
      } else {
        assert after[m] == summaries[m];
      }
    }
  }

  /** A row whose income is positive and whose derived columns follow the
      income-side rule is consistent. */
  lemma {:induction false} IncomeRowConsistent(s: Summary)
    requires s.totalIncome > 0.0
    requires Derived(s.savings, s.savingsRate, s.expenseRatio) == IncomeDerived(s.totalIncome, s.totalExpense)
    ensures Consistent(s)
  {
  }

  lemma {:induction false} IncomeTotals(expenses: seq<Expense>, summaries: map<string, Summary>, month: string, amount: real)
    requires AllDated(RowsOf(expenses)) && MonthsCovered(expenses, summaries) && TotalsMatch(expenses, summaries)
    ensures TotalsMatch(expenses, IncomeMonthUpdate(summaries, month, amount))
  {
    if month !in summaries {
      MonthTotalEmpty(RowsOf(expenses), month);
    }
  }

  /** Adding income to one month keeps the tables valid. */
  lemma {:induction false} InsertIncomeKeepsValid(expenses: seq<Expense>, summaries: map<string, Summary>, month: string, amount: real)
    requires ValidTables(expenses, summaries)
    requires IsMonthKey(month) && IsStoreDate(month) && amount > 0.0
    ensures ValidTables(expenses, IncomeMonthUpdate(summaries, month, amount))
  {
    IncomeConsistent(summaries, month, amount);
    IncomeTotals(expenses, summaries, month, amount);
  }

  /** The summary table after income is added to one month, and its validity. */
  lemma {:induction false} NextIncomeTable(expenses: seq<Expense>, summaries: map<string, Summary>, month: string, amount: real)
      returns (summaries': map<string, Summary>)
    requires ValidTables(expenses, summaries)
    requires IsMonthKey(month) && IsStoreDate(month) && amount > 0.0
    ensures summaries' == IncomeMonthUpdate(summaries, month, amount)
    ensures ValidTables(expenses, summaries')
  {
    InsertIncomeKeepsValid(expenses, summaries, month, amount);
    summaries' := IncomeMonthUpdate(summaries, month, amount);
  }

  class FinanceStore {
    var expenses: seq<Expense>
    var summaries: map<string, Summary>

    ghost predicate Valid()
      reads this
    {
      ValidTables(expenses, summaries)
    }

    constructor()
      ensures Valid() && expenses == [] && summaries == map[]
    {
      expenses := [];
      summaries := map[];
    }

    /** `insertExpenses`: validate the whole batch, insert its rows, then fold
        each month's total into the summary table. An invalid batch changes
        nothing. A batch that passes the shape check but holds a date the
        `transaction_date` column rejects (such as "2026-02-30") makes the
        one insert of all its rows fail, and nothing is written either. */
    method InsertExpenses(input: Value) returns (r: Result<InsertReport>)
      requires Valid()
      modifies this
      ensures Valid()
      ensures r.Err? <==> ValidateBatch(input).Err? || !AllStoreDates(ValidateBatch(input).value)
      ensures ValidateBatch(input).Err? ==> r == Err(ValidateBatch(input).msg)
      ensures ValidateBatch(input).Ok? && !AllStoreDates(ValidateBatch(input).value) ==> r == Err(InsertFailed)
      ensures r.Err? ==> expenses == old(expenses) && summaries == old(summaries)
      ensures r.Ok? ==>
                var rows := ValidateBatch(input).value;
                var deltas := Grouped(MonthEntries(rows));
                && expenses == old(expenses) + Numbered(rows, |old(expenses)|)
                && summaries == ApplyExpenseDeltas(old(summaries), deltas)
                && r.value == InsertReport(|rows|, |Dedup(KeysOf(MonthEntries(rows)))|)
    {
      var validated := ValidateBatch(input);
      if validated.Err? {
        return Err(validated.msg);
      }
      if !AllStoreDates(validated.value) {
        return Err(InsertFailed);
      }
      BatchRowsStored(input);
      var report := InsertRows(validated.value);
      r := Ok(report);
    }

    /** Steps 2 to 4 of `insertExpenses` for a validated batch: insert the
        rows, group their amounts by month and fold each month's total into
        the summary table. */
    method InsertRows(rows: seq<ExpenseRow>) returns (report: InsertReport)
      requires Valid()
      requires AllDated(rows) && forall i | 0 <= i < |rows| :: StoredRow(rows[i])
      modifies this
      ensures Valid()
      ensures expenses == old(expenses) + Numbered(rows, |old(expenses)|)
      ensures summaries == ApplyExpenseDeltas(old(summaries), Grouped(MonthEntries(rows)))
      ensures report == InsertReport(|rows|, |Dedup(KeysOf(MonthEntries(rows)))|)
    {
      ghost var expenses', summaries' := NextTables(expenses, summaries, rows);
      expenses := expenses + Numbered(rows, |expenses|);

      var deltas := GroupSum(MonthEntries(rows));
      FoldDeltas(deltas);
      assert expenses == expenses' && summaries == summaries';
      KeysOfGrouped(MonthEntries(rows));
      assert |deltas| == |KeysOf(deltas)|;
      report := InsertReport(|rows|, |deltas|);
    }

    /** The update loop of `insertExpenses`: each month's delta in turn
        creates the month's row (CASE 1) or grows it (CASE 2). */
    method FoldDeltas(deltas: seq<Entry<string>>)
      modifies this
      ensures expenses == old(expenses)
      ensures summaries == ApplyExpenseDeltas(old(summaries), deltas)
    {
      ghost var before := summaries;
      var i := 0;
      while i < |deltas|
        invariant 0 <= i <= |deltas|
        invariant summaries == ApplyExpenseDeltas(before, deltas[..i])
        invariant expenses == old(expenses)
      {
        assert deltas[..i + 1][..i] == deltas[..i];
        var month, expenseDelta := deltas[i].key, deltas[i].amount;
        if month !in summaries {
          var derived := ExpenseDerived(0.0, expenseDelta);
          summaries := summaries[month := Summary(month, 0.0, expenseDelta,
            derived.savings, derived.savingsRate, derived.expenseRatio, 0)];
        } else {
          var existing := summaries[month];
          var totalExpense := existing.totalExpense + expenseDelta;
          var derived := ExpenseDerived(existing.totalIncome, totalExpense);
          summaries := summaries[month := existing.(totalExpense := totalExpense,
            savings := derived.savings, savingsRate := derived.savingsRate, expenseRatio := derived.expenseRatio)];
        }
        i := i + 1;
      }
      assert deltas[..|deltas|] == deltas;
    }

    /** `insertIncome`: validate the amount and the month, then add the amount
        to the month's income, creating the month's row when there is none.
        A rejected request changes nothing. A month key that passes the loose
        check but is no date the `month` column accepts (such as "2026-13-01")
        makes the lookup and the insert fail; neither result is checked, so
        the table stays as it was and the answer is still "success". */
    method InsertIncome(body: Value) returns (r: Result<string>)
      requires Valid()
      modifies this
      ensures Valid()
      ensures expenses == old(expenses)
      ensures r.Err? <==> ValidateIncome(body).Err?
      ensures r.Err? ==> r.msg == ValidateIncome(body).msg && summaries == old(summaries)
      ensures r.Ok? ==> r.value == "success"
      ensures r.Ok? && IsStoreDate(ValidateIncome(body).value.1) ==>
                summaries == IncomeMonthUpdate(old(summaries), ValidateIncome(body).value.1, ValidateIncome(body).value.0)
      ensures r.Ok? && !IsStoreDate(ValidateIncome(body).value.1) ==> summaries == old(summaries)
    {
      var validated := ValidateIncome(body);
      if validated.Err? {
        return Err(validated.msg);
      }
      var (amount, month) := validated.value;
      if IsStoreDate(month) {
        AddIncome(month, amount);
      }
      r := Ok("success");
    }

    /** The lookup and the insert or update of `insertIncome` for a month the
        store accepts: the month's row is created (income only) or its income
        grows, and the derived columns are recomputed. */
    method AddIncome(month: string, amount: real)
      requires Valid() && IsMonthKey(month) && IsStoreDate(month) && amount > 0.0
      modifies this
      ensures Valid()
      ensures expenses == old(expenses)
      ensures summaries == IncomeMonthUpdate(old(summaries), month, amount)
    {
      ghost var summaries' := NextIncomeTable(expenses, summaries, month, amount);
      var row := IncomeRowOf(month, amount);
      summaries := summaries[month := row];
      assert summaries == summaries';
    }

    /** The lookup of `insertIncome` and the row it writes: a new row holding
        only the income when the month has none, else the existing row with
        its income grown, with the derived columns recomputed. */
    method IncomeRowOf(month: string, amount: real) returns (row: Summary)
      ensures row == IncomeRow(summaries, month, amount)
    {
      if month !in summaries {
        var derived := IncomeDerived(amount, 0.0);
        row := Summary(month, amount, 0.0, derived.savings, derived.savingsRate, derived.expenseRatio, 0);
      } else {
        var existing := summaries[month];
        var totalIncome := existing.totalIncome + amount;
        var derived := IncomeDerived(totalIncome, existing.totalExpense);
        row := existing.(totalIncome := totalIncome,
          savings := derived.savings, savingsRate := derived.savingsRate, expenseRatio := derived.expenseRatio);
      }
    }
  }

  /** Two income requests for one month accumulate. */
  lemma {:induction false} IncomeAccumulates(table: map<string, Summary>, month: string, a: real, b: real)
    ensures IncomeMonthUpdate(IncomeMonthUpdate(table, month, a), month, b)[month].totalIncome
            == (if month in table then table[month].totalIncome else 0.0) + a + b
  {
  }

  /** In valid tables, every summary row has savings equal to income minus
      expense, even though the income service's `computeDerived` would write
      0 for a month without income: that branch is never reached, because an
      income insert always leaves a positive income. */
  lemma {:induction false} ValidSavings(expenses: seq<Expense>, summaries: map<string, Summary>, m: string)
    requires ValidTables(expenses, summaries) && m in summaries
    ensures summaries[m].savings == summaries[m].totalIncome - summaries[m].totalExpense
    ensures summaries[m].totalIncome <= 0.0 ==> summaries[m].savingsRate == 0.0 && summaries[m].expenseRatio == 0.0
  {
  }
}

/** The rows of the two store tables, `expenses` and `monthly_summary`, and the
    month bookkeeping that ties them together. */
module Tables {
  import opened Values
  import opened Dates
  import opened Groups

  /** A normalised expense as `insertExpenses` writes it. */
  datatype ExpenseRow = ExpenseRow(
    amount: real,
    description: string,
    categoryCode: string,
    isDiscretionary: bool,
    transactionDate: string,
    source: string)

  /** A stored expense: the row and the identifier the store gave it. */
  datatype Expense = Expense(id: nat, row: ExpenseRow)

  /** A row of `monthly_summary`, keyed by its month (`YYYY-MM-01`). */
  datatype Summary = Summary(
    month: string,
    totalIncome: real,
    totalExpense: real,
    savings: real,
    savingsRate: real,
    expenseRatio: real,
    anomalyCount: nat)

  /** The three derived columns of a summary row. */
  datatype Derived = Derived(savings: real, savingsRate: real, expenseRatio: real)

  function RowsOf(es: seq<Expense>): (rows: seq<ExpenseRow>)
    ensures |rows| == |es| && forall i | 0 <= i < |es| :: rows[i] == es[i].row
  {
    if es == [] then [] else [es[0].row] + RowsOf(es[1..])
  }

  predicate AllDated(rows: seq<ExpenseRow>)
  {
    forall i | 0 <= i < |rows| :: IsDateShaped(rows[i].transactionDate)
  }

  /** Every row's date is one the `transaction_date` column accepts. */
  predicate AllStoreDates(rows: seq<ExpenseRow>)
  {
    forall i | 0 <= i < |rows| :: IsStoreDate(rows[i].transactionDate)
  }

  /** Each row as (month key, amount): the items the monthly aggregation sums. */
  function MonthEntries(rows: seq<ExpenseRow>): (items: seq<Entry<string>>)
    requires AllDated(rows)
    ensures |items| == |rows|
    ensures forall i | 0 <= i < |rows| ::
              items[i] == Entry(MonthStart(rows[i].transactionDate), rows[i].amount)
  {
    if rows == [] then []
    else
      var last := rows[|rows| - 1];
      MonthEntries(rows[..|rows| - 1]) + [Entry(MonthStart(last.transactionDate), last.amount)]
  }

  /** The amounts of the rows, in order. */
  function Amounts(rows: seq<ExpenseRow>): (xs: seq<real>)
    ensures |xs| == |rows| && forall i | 0 <= i < |rows| :: xs[i] == rows[i].amount
  {
    if rows == [] then [] else Amounts(rows[..|rows| - 1]) + [rows[|rows| - 1].amount]
  }

  /** Each row as (category code, amount): the items a category map sums. */
  function CategoryEntries(rows: seq<ExpenseRow>): (items: seq<Entry<string>>)
    ensures |items| == |rows|
    ensures forall i | 0 <= i < |rows| :: items[i] == Entry(rows[i].categoryCode, rows[i].amount)
  {
    if rows == [] then []
    else
      var last := rows[|rows| - 1];
      CategoryEntries(rows[..|rows| - 1]) + [Entry(last.categoryCode, last.amount)]
  }

  /** The category map of a list of rows: one entry per category code that
      occurs, in order of first occurrence, holding that category's sum; the
      entries add up to the sum of all amounts. */
  lemma {:induction false} CategoryGroups(rows: seq<ExpenseRow>)
    ensures var g := Grouped(CategoryEntries(rows));
            && Distinct(KeysOf(g))
            && KeysOf(g) == Dedup(KeysOf(CategoryEntries(rows)))
            && (forall c :: c in KeysOf(g) <==> exists i | 0 <= i < |rows| :: rows[i].categoryCode == c)
            && (forall i | 0 <= i < |g| :: g[i].amount == Total(CategoryEntries(rows), g[i].key))
            && Sum(AmountsOf(g)) == Sum(AmountsOf(CategoryEntries(rows)))
  {
    var items := CategoryEntries(rows);
    GroupedFacts(items);
    KeysOfGrouped(items);
    CategoryCodesOccur(rows);
  }

  /** The keys of the category map are the codes of the rows. */
  lemma {:induction false} CategoryCodesOccur(rows: seq<ExpenseRow>)
    ensures forall c :: c in KeysOf(Grouped(CategoryEntries(rows))) <==> exists i | 0 <= i < |rows| :: rows[i].categoryCode == c
  {
    var items := CategoryEntries(rows);
    GroupedFacts(items);
    CategoryItemCodes(rows);
    forall c ensures c in KeysOf(Grouped(items)) <==> exists i | 0 <= i < |rows| :: rows[i].categoryCode == c {
      assert c in KeysOf(Grouped(items)) <==> c in KeysOf(items);
    }
  }

  lemma {:induction false} CategoryItemCodes(rows: seq<ExpenseRow>)
    ensures forall c :: c in KeysOf(CategoryEntries(rows)) <==> exists i | 0 <= i < |rows| :: rows[i].categoryCode == c
  {
    var items := CategoryEntries(rows);
    forall c ensures c in KeysOf(items) <==> exists i | 0 <= i < |rows| :: rows[i].categoryCode == c {
      if c in KeysOf(items) {
        var i :| 0 <= i < |items| && KeysOf(items)[i] == c;
        assert rows[i].categoryCode == c;
      }
      if i :| 0 <= i < |rows| && rows[i].categoryCode == c {
        assert KeysOf(items)[i] == c;
      }
    }
  }

  /** Sum of the amounts of the rows dated in month `m`. */
  function MonthTotal(rows: seq<ExpenseRow>, m: string): real
    requires AllDated(rows)
  {
    Total(MonthEntries(rows), m)
  }

  /** The rank of a date string on the calendar, the order the store sorts and
      compares `date` columns in. Every stored date has the `YYYY-MM-DD` shape. */
  function DateRank(d: string): int
  {
    if IsDateShaped(d) then DateKey(d) else 0
  }

  lemma {:induction false} TotalConcat<K>(a: seq<Entry<K>>, b: seq<Entry<K>>, k: K)
    ensures Total(a + b, k) == Total(a, k) + Total(b, k)
  {
    if b == [] {
      assert a + b == a;
    } else {
      assert (a + b)[..|a + b| - 1] == a + b[..|b| - 1];
      TotalConcat(a, b[..|b| - 1], k);
    }
  }

  lemma {:induction false} TotalAbsent<K>(items: seq<Entry<K>>, k: K)
    requires k !in KeysOf(items)
    ensures Total(items, k) == 0.0
  {
    if items != [] {
      assert KeysOf(items[..|items| - 1]) == KeysOf(items)[..|items| - 1];
      TotalAbsent(items[..|items| - 1], k);
    }
  }

  /** Appending rows adds their month totals to the existing ones. */
  lemma {:induction false} MonthTotalAppend(before: seq<ExpenseRow>, added: seq<ExpenseRow>, m: string)
    requires AllDated(before) && AllDated(added)
    ensures AllDated(before + added)
    ensures MonthTotal(before + added, m) == MonthTotal(before, m) + Total(MonthEntries(added), m)
  {
    AllDatedAppend(before, added);
    if added == [] {
      assert before + added == before;
    } else {
      var init := added[..|added| - 1];
      var all := before + added;
      assert all[..|all| - 1] == before + init;
      assert all[|all| - 1] == added[|added| - 1];
      MonthTotalStep(added, m);
      MonthTotalAppend(before, init, m);
      MonthTotalStep(all, m);
    }
  }

  lemma {:induction false} AllDatedAppend(before: seq<ExpenseRow>, added: seq<ExpenseRow>)
    requires AllDated(before) && AllDated(added)
    ensures AllDated(before + added)
  {
    forall i | 0 <= i < |before + added| ensures IsDateShaped((before + added)[i].transactionDate) {
      if i >= |before| { assert (before + added)[i] == added[i - |before|]; }
    }
  }

  /** The month total of some rows is that of all but the last, plus the last
      row's amount when it falls in the month. */
  lemma {:induction false} MonthTotalStep(rows: seq<ExpenseRow>, m: string)
    requires AllDated(rows) && rows != []
    ensures AllDated(rows[..|rows| - 1])
    ensures var last := rows[|rows| - 1];
            MonthTotal(rows, m) == MonthTotal(rows[..|rows| - 1], m)
                                   + (if MonthStart(last.transactionDate) == m then last.amount else 0.0)
  {
    var init, last := rows[..|rows| - 1], rows[|rows| - 1];
    assert AllDated(init) by {
      forall i | 0 <= i < |init| ensures IsDateShaped(init[i].transactionDate) {
        assert init[i] == rows[i];
      }
    }
    var e := Entry(MonthStart(last.transactionDate), last.amount);
    assert MonthEntries(rows) == MonthEntries(init) + [e];
    TotalSnoc(MonthEntries(init), e, m);
  }

  lemma {:induction false} TotalSnoc<K>(items: seq<Entry<K>>, e: Entry<K>, k: K)
    ensures Total(items + [e], k) == Total(items, k) + (if e.key == k then e.amount else 0.0)
  {
    assert (items + [e])[..|items|] == items;
  }

  /** A month that no row falls in has total 0. */
  lemma {:induction false} MonthTotalEmpty(rows: seq<ExpenseRow>, m: string)
    requires AllDated(rows)
    requires forall i | 0 <= i < |rows| :: MonthStart(rows[i].transactionDate) != m
    ensures MonthTotal(rows, m) == 0.0
  {
    var items := MonthEntries(rows);
    assert m !in KeysOf(items);
    TotalAbsent(items, m);
  }
}

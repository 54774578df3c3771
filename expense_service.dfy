/** The pure part of the expense service: categories, validation and
    normalisation of a batch, the month key of a date, the derived summary
    columns, and the two reads of the `expenses` table. */
module ExpenseService {
  import opened Values
  import opened Text
  import opened Dates
  import opened Sorting
  import opened Tables

  /** The expense category codes, `Object.values(EXPENSE_CATEGORIES)`. */
  const ExpenseCategories: seq<string> :=
    ["FOOD", "TRANSPORT", "SHOPPING", "UTILITIES", "ENTERTAINMENT", "OTHER"]

  predicate IsValidCategory(c: string)
  {
    c in ExpenseCategories
  }

  /** Food, shopping and entertainment are the discretionary categories. */
  function InferDiscretionary(c: string): (r: bool)
    ensures r <==> c == "FOOD" || c == "SHOPPING" || c == "ENTERTAINMENT"
    ensures r ==> IsValidCategory(c)
  {
    c == "FOOD" || c == "SHOPPING" || c == "ENTERTAINMENT"
  }

  /** `computeDerived` of the expense service: savings are income minus
      expense whatever the income; both rates are 0 unless the income is
      positive, and are then the exact percentages. */
  function ExpenseDerived(income: real, expense: real): (d: Derived)
    ensures d.savings == income - expense
    ensures income <= 0.0 ==> d.savingsRate == 0.0 && d.expenseRatio == 0.0
    ensures income > 0.0 ==> d.savingsRate * income == d.savings * 100.0
    ensures income > 0.0 ==> d.expenseRatio * income == expense * 100.0
  {
    var savings := income - expense;
    Derived(
      savings,
      if income > 0.0 then savings / income * 100.0 else 0.0,
      if income > 0.0 then expense / income * 100.0 else 0.0)
  }

  /** With a positive income the two rates add up to 100. */
  lemma {:induction false} ExpenseRatesComplement(income: real, expense: real)
    requires income > 0.0
    ensures ExpenseDerived(income, expense).savingsRate + ExpenseDerived(income, expense).expenseRatio == 100.0
  {
    var d := ExpenseDerived(income, expense);
    assert (d.savingsRate + d.expenseRatio) * income == 100.0 * income;
  }

  const NotAnArray := "Expenses must be a non-empty array"
  const InvalidEntry := "Invalid expense entry"

  /** The TypeError of `const { amount, ... } = exp` when `exp` is null or undefined. */
  function DestructureError(v: Value): string
  {
    "Cannot destructure property 'amount' of 'exp' as it is " + (if v.Null? then "null." else "undefined.")
  }

  /** The shape checks of one entry, in the order the source evaluates them. */
  predicate WellFormedEntry(v: Value)
  {
    var amount, description := Field(v, "amount"), Field(v, "description");
    var category, date := Field(v, "category"), Field(v, "transaction_date");
    amount.Num? && amount.x > 0.0
    && description.Str? && !IsBlank(description.s)
    && category.Str?
    && date.Str? && IsDateShaped(date.s)
  }

  /** Validation and normalisation of one entry of the batch. */
  function ValidateEntry(v: Value): (r: Result<ExpenseRow>)
    ensures (v.Null? || v.Undefined?) ==> r == Err(DestructureError(v))
    ensures !(v.Null? || v.Undefined?) && !WellFormedEntry(v) ==> r == Err(InvalidEntry)
    ensures !(v.Null? || v.Undefined?) && WellFormedEntry(v) && !IsValidCategory(Field(v, "category").s)
            ==> r == Err("Invalid category: " + Field(v, "category").s)
    ensures r.Ok? <==> !(v.Null? || v.Undefined?) && WellFormedEntry(v) && IsValidCategory(Field(v, "category").s)
    ensures r.Ok? ==>
              && r.value.amount == Field(v, "amount").x && r.value.amount > 0.0
              && r.value.description == Field(v, "description").s && !IsBlank(r.value.description)
              && r.value.categoryCode == Field(v, "category").s && IsValidCategory(r.value.categoryCode)
              && r.value.transactionDate == Field(v, "transaction_date").s
              && IsDateShaped(r.value.transactionDate)
              && (r.value.isDiscretionary <==> r.value.categoryCode in ["FOOD", "SHOPPING", "ENTERTAINMENT"])
              && r.value.source == "manual"
  {
    if v.Null? || v.Undefined? then Err(DestructureError(v))
    else if !WellFormedEntry(v) then Err(InvalidEntry)
    else
      var category := Field(v, "category").s;
      if !IsValidCategory(category) then Err("Invalid category: " + category)
      else Ok(ExpenseRow(
        Field(v, "amount").x,
        Field(v, "description").s,
        category,
        InferDiscretionary(category),
        Field(v, "transaction_date").s,
        "manual"))
  }

  /** A flag the caller sends along with an entry has no effect on its row. */
  lemma {:induction false} CallerFlagIgnored(fields: map<string, Value>, flag: Value)
    ensures ValidateEntry(Obj(fields)) == ValidateEntry(Obj(fields["is_discretionary" := flag]))
  {
    var g := fields["is_discretionary" := flag];
    assert Field(Obj(g), "amount") == Field(Obj(fields), "amount");
    assert Field(Obj(g), "description") == Field(Obj(fields), "description");
    assert Field(Obj(g), "category") == Field(Obj(fields), "category");
    assert Field(Obj(g), "transaction_date") == Field(Obj(fields), "transaction_date");
  }

  /** `expenses.map(...)`: the rows of the entries, or the error of the first
      entry that fails. */
  function ValidateEntries(items: seq<Value>): (r: Result<seq<ExpenseRow>>)
    ensures r.Ok? <==> forall i | 0 <= i < |items| :: ValidateEntry(items[i]).Ok?
    ensures r.Ok? ==> |r.value| == |items|
                      && forall i | 0 <= i < |items| :: r.value[i] == ValidateEntry(items[i]).value
  {
    if items == [] then Ok([])
    else
      match ValidateEntry(items[0])
      case Err(m) => Err(m)
      case Ok(row) =>
        assert forall i | 1 <= i < |items| :: items[i] == items[1..][i - 1];
        match ValidateEntries(items[1..])
        case Err(m) => Err(m)
        case Ok(rest) =>
          var r := [row] + rest;
          assert r[0] == row && r[1..] == rest;
          Ok(r)
  }

  /** A rejected list is rejected with the error of its first invalid entry:
      entry `i` fails with that message and every entry before it is valid. */
  lemma {:induction false} FirstInvalidEntry(items: seq<Value>) returns (i: nat)
    requires ValidateEntries(items).Err?
    ensures i < |items| && ValidateEntry(items[i]).Err?
    ensures ValidateEntries(items).msg == ValidateEntry(items[i]).msg
    ensures forall j | 0 <= j < i :: ValidateEntry(items[j]).Ok?
  {
    if ValidateEntry(items[0]).Err? {
      i := 0;
    } else {
      var k := FirstInvalidEntry(items[1..]);
      i := k + 1;
      assert forall j | 1 <= j < |items| :: items[j] == items[1..][j - 1];
    }
  }

  /** The validation phase of `insertExpenses`: a non-empty array whose every
      entry is valid, or the first error. */
  function ValidateBatch(input: Value): (r: Result<seq<ExpenseRow>>)
    ensures !input.Arr? || input.items == [] ==> r == Err(NotAnArray)
    ensures input.Arr? && input.items != [] ==> r == ValidateEntries(input.items)
    ensures r.Ok? ==> |r.value| > 0 && AllDated(r.value)
  {
    if !input.Arr? || input.items == [] then Err(NotAnArray)
    else ValidateEntries(input.items)
  }

  /** The object-shaped call `insertExpenses({ expenses: [...] })` is turned
      away before anything is written. */
  lemma {:induction false} WrappedBatchRejected(fields: map<string, Value>)
    ensures ValidateBatch(Obj(fields)) == Err(NotAnArray)
  {
  }

  /** One invalid entry anywhere rejects the whole batch. */
  lemma {:induction false} InvalidEntryRejectsBatch(items: seq<Value>, i: nat)
    requires i < |items| && ValidateEntry(items[i]).Err?
    ensures ValidateBatch(Arr(items)).Err?
  {
  }

  /** `fetchAllExpenses`: every stored expense, latest date first. */
  function FetchAllExpenses(table: seq<Expense>): (r: seq<Expense>)
    ensures multiset(r) == multiset(table)
    ensures forall i, j | 0 <= i < j < |r| ::
              DateRank(r[i].row.transactionDate) >= DateRank(r[j].row.transactionDate)
  {
    var key := (e: Expense) => DateRank(e.row.transactionDate) as real;
    var r := SortDesc(table, key);
    SortDescSorted(table, key);
    r
  }

  /** The first day of the month after the month key `key`, as a calendar rank. */
  function MonthEnd(key: string): int
    requires IsMonthKey(key)
  {
    NextMonthStartKey(Year(key), Month(key))
  }

  /** The rows of a month: `start <= transaction_date < end`. */
  function InMonth(table: seq<Expense>, key: string): (r: seq<Expense>)
    requires IsMonthKey(key)
    ensures forall e :: e in r <==>
              (e in table && DateKey(key) <= DateRank(e.row.transactionDate) < MonthEnd(key))
    ensures forall e :: multiset(r)[e] ==
              if DateKey(key) <= DateRank(e.row.transactionDate) < MonthEnd(key) then multiset(table)[e] else 0
  {
    if table == [] then []
    else
      var init := InMonth(table[..|table| - 1], key);
      var last := table[|table| - 1];
      assert table == table[..|table| - 1] + [last];
      assert multiset(table) == multiset(table[..|table| - 1]) + multiset{last};
      if DateKey(key) <= DateRank(last.row.transactionDate) < MonthEnd(key) then
        assert multiset(init + [last]) == multiset(init) + multiset{last};
        init + [last]
      else init
  }

  const BadMonth := "Date must be in YYYY-MM-01 format"

  /** `getExpensesByMonth`: the rows dated in the month, latest first, after
      the strict month check. */
  function GetExpensesByMonth(month: string, table: seq<Expense>): (r: Result<seq<Expense>>)
    ensures r.Err? <==> !IsStrictMonthKey(month)
    ensures r.Err? ==> r.msg == BadMonth
    ensures r.Ok? ==>
              (forall e :: e in r.value <==>
                 (e in table && DateKey(month) <= DateRank(e.row.transactionDate) < MonthEnd(month)))
              && (forall i, j | 0 <= i < j < |r.value| ::
                    DateRank(r.value[i].row.transactionDate) >= DateRank(r.value[j].row.transactionDate))
              && multiset(r.value) <= multiset(table)
  {
    if !IsStrictMonthKey(month) then Err(BadMonth)
    else
      var rows := InMonth(table, month);
      var key := (e: Expense) => DateRank(e.row.transactionDate) as real;
      SortDescCorrect(rows, key);
      Ok(SortDesc(rows, key))
  }

  /** For a stored date with a real month and day, the range query of a month
      returns it exactly when its month key is that month. */
  lemma {:induction false} MonthQueryMatchesMonthKey(month: string, table: seq<Expense>, e: Expense)
    requires IsStrictMonthKey(month) && e in table
    requires IsDateShaped(e.row.transactionDate)
    requires 1 <= Month(e.row.transactionDate) <= 12 && 1 <= Day(e.row.transactionDate)
    ensures e in GetExpensesByMonth(month, table).value
            <==> MonthStart(e.row.transactionDate) == month
  {
    InMonthRangeIffMonthStart(e.row.transactionDate, month);
  }
}

/** `analyzeRecommendations`: the month check, the summary lookup, the
    category totals of the month's expenses and the payload sent to the
    prediction service, whose answer is passed back. The expense query's
    upper bound is day 31 of the key's month, which the store rejects for
    February and the 30-day months; `AnalyzeMonthRecommendations` is the
    same service with the month's real last day as the bound. */
module FutureRecommendationService {
  import opened Values
  import opened Text
  import opened Dates
  import opened Groups
  import opened Tables
  import IncomeService

  const BadMonth := "Month must be YYYY-MM-01"
  const SummaryNotFound := "Monthly summary not found"
  const MlFailed := "ML service failed"
  /** The TypeError of `for (const e of expenses)` when the expense query
      failed and `expenses` is null. */
  const NotIterable := "expenses is not iterable"

  /** The body posted to the prediction service. */
  datatype Payload = Payload(month: string, income: real, expenses: seq<Entry<string>>)

  /** What the prediction service answers: whether the response is ok and
      its parsed body. */
  datatype MlResponse = MlResponse(ok: bool, body: Value)

  /** `month.slice(0, 8) + "31"`, the upper bound of the expense query. */
  function WindowEnd(month: string): string
    requires |month| >= 8
  {
    month[..8] + "31"
  }

  /** The upper bound names day 31 of the key's year and month. */
  lemma {:induction false} WindowEndParts(month: string)
    requires IsMonthKey(month)
    ensures IsDateShaped(WindowEnd(month))
    ensures Year(WindowEnd(month)) == Year(month) && Month(WindowEnd(month)) == Month(month)
    ensures Day(WindowEnd(month)) == 31
  {
    var end := WindowEnd(month);
    assert end[..4] == month[..4] && end[5..7] == month[5..7] && end[8..] == "31";
    assert "31"[..1] == "3" && "3"[..0] == [];
  }

  /** The store cannot compare `transaction_date` with the upper bound, so the
      expense query fails. */
  predicate WindowRejected(month: string)
    requires |month| >= 8
  {
    !IsStoreDate(WindowEnd(month))
  }

  /** For a month key the store accepts, the expense query fails exactly for
      the months with fewer than 31 days. */
  lemma {:induction false} WindowRejectedIff(month: string)
    requires IsMonthKey(month) && IsStoreDate(month)
    ensures WindowRejected(month) <==> DaysInMonth(Year(month), Month(month)) < 31
  {
    WindowEndParts(month);
  }

  /** The February key of a year: a key the month check and the summary
      lookup accept, whose expense query fails. */
  lemma {:induction false} FebruaryWindowRejected()
    ensures IsMonthKey("2026-02-01") && IsStoreDate("2026-02-01")
    ensures WindowRejected("2026-02-01")
  {
    var month := "2026-02-01";
    assert month[..4] == "2026" && month[5..7] == "02" && month[8..] == "01";
    assert "2026"[..3] == "202" && "202"[..2] == "20" && "20"[..1] == "2" && "2"[..0] == [];
    assert "02"[..1] == "0" && "0"[..0] == [] && "01"[..1] == "0";
    assert Year(month) == 2026 && Month(month) == 2 && Day(month) == 1;
    WindowRejectedIff(month);
  }

  /** `transaction_date >= month` and `transaction_date <= WindowEnd(month)`,
      compared as strings, which on `YYYY-MM-DD` dates is the order of the
      calendar (`Dates.DateStringOrder`). */
  predicate InWindow(d: string, month: string)
    requires |month| >= 8
  {
    LexLe(month, d) && LexLe(d, WindowEnd(month))
  }

  /** The expense rows the query returns, in their stored order. */
  function WindowRows(rows: seq<ExpenseRow>, month: string): (r: seq<ExpenseRow>)
    requires |month| >= 8
    ensures forall x :: x in r <==> x in rows && InWindow(x.transactionDate, month)
    ensures forall x :: multiset(r)[x] == if InWindow(x.transactionDate, month) then multiset(rows)[x] else 0
  {
    if rows == [] then []
    else
      var init, last := rows[..|rows| - 1], rows[|rows| - 1];
      assert rows == init + [last];
      var r := WindowRows(init, month);
      if InWindow(last.transactionDate, month) then r + [last] else r
  }

  /** For a stored date the string window is the month of the key, days 01
      to 31. */
  lemma {:induction false} WindowIsMonth(d: string, month: string)
    requires IsDateShaped(d) && IsMonthKey(month)
    ensures InWindow(d, month) <==> Year(d) == Year(month) && Month(d) == Month(month) && 1 <= Day(d) <= 31
  {
    var end := WindowEnd(month);
    WindowEndParts(month);
    assert "01"[..1] == "0" && "0"[..0] == [];
    assert month[8..] == "01";
    assert Day(month) == 1;
    DateStringOrder(month, d);
    DateStringOrder(d, end);
    DigitsValueBound(d[8..]);
    DigitsValueBound(d[5..7]);
    DigitsValueBound(month[5..7]);
    assert Pow10(2) == 100;
    var a, a' := Year(month) * 100 + Month(month), Year(d) * 100 + Month(d);
    assert DateKey(month) == a * 100 + 1 && DateKey(end) == a * 100 + 31 && DateKey(d) == a' * 100 + Day(d);
    LeadingDigitOrder(a, a', 1, Day(d), 100);
    LeadingDigitOrder(a', a, Day(d), 31, 100);
    LeadingDigitOrder(Year(month), Year(d), Month(month), Month(d), 100);
    LeadingDigitOrder(Year(d), Year(month), Month(d), Month(month), 100);
  }

  /** `categoryMap` as the loop builds it from `rows`: one entry per category
      code that occurs, each code once, holding the sum of its rows. */
  ghost predicate IsCategoryMap(categoryMap: seq<Entry<string>>, rows: seq<ExpenseRow>)
  {
    && Distinct(KeysOf(categoryMap))
    && (forall c :: c in KeysOf(categoryMap) <==> exists i | 0 <= i < |rows| :: rows[i].categoryCode == c)
    && (forall i | 0 <= i < |categoryMap| :: categoryMap[i].amount == Total(CategoryEntries(rows), categoryMap[i].key))
  }

  /** `analyzeRecommendations(month)` against the summary table `summaries`
      and the expense table `expenses`, with `respond` standing for the
      prediction service. `sent` is the payload that was posted, if any. A
      key the store does not accept makes the summary lookup fail, which the
      service reports as a missing summary. */
  method AnalyzeRecommendations(month: string, summaries: map<string, Summary>, expenses: seq<Expense>,
                                respond: Payload -> MlResponse)
    returns (r: Result<Value>, sent: Option<Payload>)
    ensures !IsMonthKey(month) ==> r == Err(BadMonth) && sent == None
    ensures IsMonthKey(month) && (!IsStoreDate(month) || month !in summaries) ==>
              r == Err(SummaryNotFound) && sent == None
    ensures IsMonthKey(month) && IsStoreDate(month) && month in summaries && WindowRejected(month) ==>
              r == Err(NotIterable) && sent == None
    ensures IsMonthKey(month) && IsStoreDate(month) && month in summaries && !WindowRejected(month) ==>
              var rows := WindowRows(RowsOf(expenses), month);
              && sent == Some(Payload(month[..7], summaries[month].totalIncome, Grouped(CategoryEntries(rows))))
              && r == (if respond(sent.value).ok then Ok(respond(sent.value).body) else Err(MlFailed))
              && IsCategoryMap(sent.value.expenses, rows)
  {
    if !IncomeService.IsValidMonth(Str(month)) {
      return Err(BadMonth), None;
    }
    if !IsStoreDate(month) || month !in summaries {
      return Err(SummaryNotFound), None;
    }
    if WindowRejected(month) {
      return Err(NotIterable), None;
    }
    r, sent := PostCategoryMap(month, summaries[month], WindowRows(RowsOf(expenses), month), respond);
  }

  /** Steps 3 to 5 of the service: the category totals of the fetched rows,
      the payload built from them and the prediction service's answer. */
  method PostCategoryMap(month: string, summary: Summary, rows: seq<ExpenseRow>, respond: Payload -> MlResponse)
    returns (r: Result<Value>, sent: Option<Payload>)
    requires |month| >= 7
    ensures sent == Some(Payload(month[..7], summary.totalIncome, Grouped(CategoryEntries(rows))))
    ensures r == (if respond(sent.value).ok then Ok(respond(sent.value).body) else Err(MlFailed))
    ensures IsCategoryMap(sent.value.expenses, rows)
  {
    var items := CategoryEntries(rows);
    var categoryMap := GroupSum(items);
    CategoryGroups(rows);
    var payload := Payload(month[..7], summary.totalIncome, categoryMap);
    sent := Some(payload);
    var response := respond(payload);
    if !response.ok {
      return Err(MlFailed), sent;
    }
    r := Ok(response.body);
  }

  // ---------------------------------------------------------------------
  // The window the query evidently means: the key's month, up to its real
  // last day

  /** The last day of the key's month, a date the store accepts whenever the
      key is one. */
  function MonthLastDay(month: string): (end: string)
    requires IsMonthKey(month)
    ensures IsDateShaped(end) && Year(end) == Year(month) && Month(end) == Month(month)
    ensures Day(end) == DaysInMonth(Year(month), Month(month))
    ensures IsStoreDate(month) ==> IsStoreDate(end)
  {
    var n := DaysInMonth(Year(month), Month(month));
    var end := month[..8] + PadTwo(n);
    assert end[..4] == month[..4] && end[5..7] == month[5..7] && end[8..] == PadTwo(n);
    end
  }

  /** `transaction_date` between the key and the month's last day, compared
      as dates. */
  predicate InMonthWindow(d: string, month: string)
    requires IsMonthKey(month)
  {
    DateKey(month) <= DateRank(d) <= DateKey(MonthLastDay(month))
  }

  /** For a calendar date, the corrected window holds exactly the dates of
      the key's month. */
  lemma {:induction false} MonthWindowIsMonth(d: string, month: string)
    requires IsCalendarDate(d) && IsMonthKey(month) && IsStoreDate(month)
    ensures InMonthWindow(d, month) <==> MonthStart(d) == month
  {
    MonthKeyStoreDateIff(month);
    InMonthRangeIffMonthStart(d, month);
    SameMonthIff(d, month);
    assert "01"[..1] == "0" && "0"[..0] == [];
    assert month[8..] == "01";
    assert Day(month) == 1;
  }

  /** The expense rows of the corrected query, in their stored order. */
  function MonthWindowRows(rows: seq<ExpenseRow>, month: string): (r: seq<ExpenseRow>)
    requires IsMonthKey(month)
    ensures forall x :: x in r <==> x in rows && InMonthWindow(x.transactionDate, month)
    ensures multiset(r) <= multiset(rows)
  {
    if rows == [] then []
    else
      var init, last := rows[..|rows| - 1], rows[|rows| - 1];
      assert rows == init + [last];
      var r := MonthWindowRows(init, month);
      if InMonthWindow(last.transactionDate, month) then r + [last] else r
  }

  /** Over calendar-dated rows, the corrected query returns exactly the rows
      whose month key is the requested month. */
  lemma {:induction false} MonthWindowRowsAreMonth(rows: seq<ExpenseRow>, month: string)
    requires forall x | x in rows :: IsCalendarDate(x.transactionDate)
    requires IsMonthKey(month) && IsStoreDate(month)
    ensures forall x :: x in MonthWindowRows(rows, month) <==>
                          x in rows && IsDateShaped(x.transactionDate) && MonthStart(x.transactionDate) == month
  {
    forall x | x in rows ensures InMonthWindow(x.transactionDate, month) <==> MonthStart(x.transactionDate) == month {
      MonthWindowIsMonth(x.transactionDate, month);
    }
  }

  /** The service with the corrected window: it never fails on the expense
      query, and the payload holds the category totals of the month's rows. */
  method AnalyzeMonthRecommendations(month: string, summaries: map<string, Summary>, expenses: seq<Expense>,
                                     respond: Payload -> MlResponse)
    returns (r: Result<Value>, sent: Option<Payload>)
    ensures !IsMonthKey(month) ==> r == Err(BadMonth) && sent == None
    ensures IsMonthKey(month) && (!IsStoreDate(month) || month !in summaries) ==>
              r == Err(SummaryNotFound) && sent == None
    ensures IsMonthKey(month) && IsStoreDate(month) && month in summaries ==>
              var rows := MonthWindowRows(RowsOf(expenses), month);
              && sent == Some(Payload(month[..7], summaries[month].totalIncome, Grouped(CategoryEntries(rows))))
              && r == (if respond(sent.value).ok then Ok(respond(sent.value).body) else Err(MlFailed))
              && IsCategoryMap(sent.value.expenses, rows)
  {
    if !IncomeService.IsValidMonth(Str(month)) {
      return Err(BadMonth), None;
    }
    if !IsStoreDate(month) || month !in summaries {
      return Err(SummaryNotFound), None;
    }
    r, sent := PostCategoryMap(month, summaries[month], MonthWindowRows(RowsOf(expenses), month), respond);
  }
}

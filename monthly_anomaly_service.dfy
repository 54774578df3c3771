/** `detectMonthlyAnomalies`: the month's expenses, normalised into the batch
    payload, sent to the batch scorer (whose failure yields no results), and
    the suspicious results counted. */
module MonthlyAnomalyService {
  import opened Values
  import opened Text
  import opened Tables
  import opened Dates
  import ExpenseService

  /** One entry of the batch payload. */
  datatype PayloadEntry = PayloadEntry(
    id: string,
    amount: real,
    categoryCode: string,
    isDiscretionary: int,
    transactionDate: string)

  /** What the batch call did: it threw (network failure, a non-ok status, a
      body that is not JSON), or it returned a parsed body. */
  datatype BatchOutcome = BatchFailed | BatchReturned(body: Value)

  datatype MonthlyAnomalies = MonthlyAnomalies(
    month: string,
    totalExpenses: nat,
    anomalyCount: nat,
    anomalies: seq<Value>)

  /** The normalisation of one expense: the id as a decimal string, the flag
      as 1 or 0. */
  function ToPayloadEntry(e: Expense): (p: PayloadEntry)
    ensures AllDigits(p.id) && p.id != [] && DigitsValue(p.id) == e.id
    ensures p.amount == e.row.amount && p.categoryCode == e.row.categoryCode
    ensures p.transactionDate == e.row.transactionDate
    ensures p.isDiscretionary == (if e.row.isDiscretionary then 1 else 0)
  {
    NatToStringRoundTrip(e.id);
    PayloadEntry(NatToString(e.id), e.row.amount, e.row.categoryCode,
                 if e.row.isDiscretionary then 1 else 0, e.row.transactionDate)
  }

  /** `expenses.map(...)`: one entry per expense, in order. */
  function Payload(expenses: seq<Expense>): (p: seq<PayloadEntry>)
    ensures |p| == |expenses| && forall i | 0 <= i < |expenses| :: p[i] == ToPayloadEntry(expenses[i])
  {
    if expenses == [] then []
    else Payload(expenses[..|expenses| - 1]) + [ToPayloadEntry(expenses[|expenses| - 1])]
  }

  /** Distinct expense ids stay distinct once written as strings, so the
      scorer's results can be matched back to the expenses. */
  lemma {:induction false} PayloadIdsDistinct(expenses: seq<Expense>, i: nat, j: nat)
    requires i < |expenses| && j < |expenses| && expenses[i].id != expenses[j].id
    ensures Payload(expenses)[i].id != Payload(expenses)[j].id
  {
  }

  /** `results` after the `try`: the body's `results` property, or `[]` when
      the call threw or the body was null (reading `.results` of null throws
      inside the `try` as well). */
  function BatchResults(outcome: BatchOutcome): (results: Value)
    ensures outcome.BatchFailed? ==> results == Arr([])
    ensures outcome.BatchReturned? && !(outcome.body.Null? || outcome.body.Undefined?)
            ==> results == Field(outcome.body, "results")
  {
    match outcome
    case BatchFailed => Arr([])
    case BatchReturned(body) => if body.Null? || body.Undefined? then Arr([]) else Field(body, "results")
  }

  /** The TypeError `results.filter(...)` throws when `results` is no array. */
  function FilterError(results: Value): string
  {
    if results.Null? then "Cannot read properties of null (reading 'filter')"
    else if results.Undefined? then "Cannot read properties of undefined (reading 'filter')"
    else "results.filter is not a function"
  }

  /** The TypeError the filter callback throws on a null or undefined result. */
  function SuspiciousError(v: Value): string
  {
    "Cannot read properties of " + (if v.Null? then "null" else "undefined") + " (reading 'suspicious')"
  }

  /** `items.filter(r => r.suspicious)`: the results whose `suspicious` is
      truthy, in order, or the error of the first null or undefined one. */
  function Suspicious(items: seq<Value>): (r: Result<seq<Value>>)
    ensures r.Ok? <==> forall i | 0 <= i < |items| :: !(items[i].Null? || items[i].Undefined?)
    ensures r.Err? ==> exists i | 0 <= i < |items| ::
                         (items[i].Null? || items[i].Undefined?) && r.msg == SuspiciousError(items[i])
                         && forall j | 0 <= j < i :: !(items[j].Null? || items[j].Undefined?)
    ensures r.Ok? ==> |r.value| <= |items|
                      && forall v :: v in r.value <==> v in items && Truthy(Field(v, "suspicious"))
  {
    if items == [] then Ok([])
    else if items[0].Null? || items[0].Undefined? then Err(SuspiciousError(items[0]))
    else
      match Suspicious(items[1..])
      case Err(m) =>
        assert forall i | 1 <= i < |items| :: items[i] == items[1..][i - 1];
        Err(m)
      case Ok(rest) =>
        assert items == [items[0]] + items[1..];
        Ok(if Truthy(Field(items[0], "suspicious")) then [items[0]] + rest else rest)
  }

  /** The filter keeps the order of the results: filtering a concatenation
      concatenates the filtered parts. */
  lemma {:induction false} SuspiciousConcat(a: seq<Value>, b: seq<Value>)
    requires Suspicious(a).Ok? && Suspicious(b).Ok?
    ensures Suspicious(a + b) == Ok(Suspicious(a).value + Suspicious(b).value)
  {
    if a == [] {
      assert a + b == b;
      assert Suspicious(a).value + Suspicious(b).value == Suspicious(b).value;
    } else {
      var t := a[1..];
      assert a == [a[0]] + t;
      assert a + b == [a[0]] + (t + b);
      assert Suspicious(t).Ok? by {
        assert forall i | 0 <= i < |t| :: t[i] == a[i + 1];
      }
      SuspiciousConcat(t, b);
      SuspiciousCons(a[0], t + b);
      SuspiciousCons(a[0], t);
      var x, y := Suspicious(t).value, Suspicious(b).value;
      var head := if Truthy(Field(a[0], "suspicious")) then [a[0]] else [];
      ConcatAssociative(head, x, y);
    }
  }

  lemma {:induction false} ConcatAssociative<T>(p: seq<T>, q: seq<T>, r: seq<T>)
    ensures p + (q + r) == (p + q) + r
  {
  }

  /** The filter on a result that is neither null nor undefined, followed by
      more results. */
  lemma {:induction false} SuspiciousCons(v: Value, rest: seq<Value>)
    requires !(v.Null? || v.Undefined?) && Suspicious(rest).Ok?
    ensures Suspicious([v] + rest)
            == Ok((if Truthy(Field(v, "suspicious")) then [v] else []) + Suspicious(rest).value)
  {
    var s := [v] + rest;
    assert s[0] == v && s[1..] == rest;
    if !Truthy(Field(v, "suspicious")) {
      assert [] + Suspicious(rest).value == Suspicious(rest).value;
    }
  }

  /** `results.filter(r => r.suspicious)` on whatever `results` is. */
  function Anomalies(results: Value): (r: Result<seq<Value>>)
    ensures !results.Arr? ==> r == Err(FilterError(results))
    ensures results.Arr? ==> r == Suspicious(results.items)
  {
    if results.Arr? then Suspicious(results.items) else Err(FilterError(results))
  }

  /** `detectMonthlyAnomalies(month)` against the expense table `table`, with
      `batch` standing for the batch scorer. */
  function DetectMonthlyAnomalies(month: string, table: seq<Expense>, batch: seq<PayloadEntry> -> BatchOutcome)
    : (r: Result<MonthlyAnomalies>)
    ensures ExpenseService.GetExpensesByMonth(month, table).Err? ==> r == Err(ExpenseService.BadMonth)
    ensures ExpenseService.GetExpensesByMonth(month, table).Ok? ==>
              var expenses := ExpenseService.GetExpensesByMonth(month, table).value;
              var found := Anomalies(BatchResults(batch(Payload(expenses))));
              && (r.Ok? <==> found.Ok?)
              && (r.Err? ==> r.msg == found.msg)
              && (r.Ok? ==> r.value == MonthlyAnomalies(month, |expenses|, |found.value|, found.value))
    ensures r.Ok? ==> r.value.month == month && r.value.anomalyCount == |r.value.anomalies|
  {
    match ExpenseService.GetExpensesByMonth(month, table)
    case Err(m) => Err(m)
    case Ok(expenses) =>
      var results := BatchResults(batch(Payload(expenses)));
      match Anomalies(results)
      case Err(m) => Err(m)
      case Ok(anomalies) => Ok(MonthlyAnomalies(month, |expenses|, |anomalies|, anomalies))
  }

  /** A failing batch call degrades to a report without anomalies. */
  lemma {:induction false} FailedBatchReportsNothing(month: string, table: seq<Expense>,
                                                    batch: seq<PayloadEntry> -> BatchOutcome)
    requires IsStrictMonthKey(month)
    requires batch(Payload(ExpenseService.GetExpensesByMonth(month, table).value)) == BatchFailed
    ensures DetectMonthlyAnomalies(month, table, batch).Ok?
    ensures DetectMonthlyAnomalies(month, table, batch).value.anomalies == []
    ensures DetectMonthlyAnomalies(month, table, batch).value.totalExpenses
            == |ExpenseService.GetExpensesByMonth(month, table).value|
  {
  }
}

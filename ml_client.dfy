/** The stand-ins for the prediction service used by the analysis: a fixed
    amount threshold in place of anomaly detection, and a constant forecast. */
module MlClient {
  import opened Tables

  /** An expense reported as unusual. */
  datatype Flagged = Flagged(description: string, amount: real, category: string)

  /** The savings forecast. */
  datatype Forecast = Forecast(sixMonths: real, twelveMonths: real)

  const Threshold: real := 2000.0

  function Flag(row: ExpenseRow): (f: Flagged)
    ensures f.description == row.description && f.amount == row.amount && f.category == row.categoryCode
  {
    Flagged(row.description, row.amount, row.categoryCode)
  }

  /** `detectAnomalies(expenses)`: the expenses above 2000, in order, each
      with its description, amount and category code. */
  function DetectAnomalies(rows: seq<ExpenseRow>): (r: seq<Flagged>)
    ensures |r| <= |rows|
    ensures forall f :: f in r <==> exists i | 0 <= i < |rows| :: rows[i].amount > Threshold && f == Flag(rows[i])
  {
    if rows == [] then []
    else
      var init, last := rows[..|rows| - 1], rows[|rows| - 1];
      assert forall i | 0 <= i < |init| :: init[i] == rows[i];
      DetectAnomalies(init) + (if last.amount > Threshold then [Flag(last)] else [])
  }

  /** The filter is applied row by row: the result for a concatenation is the
      concatenation of the results, so the order of the rows is kept. */
  lemma {:induction false} DetectAnomaliesConcat(a: seq<ExpenseRow>, b: seq<ExpenseRow>)
    ensures DetectAnomalies(a + b) == DetectAnomalies(a) + DetectAnomalies(b)
  {
    if b == [] {
      assert a + b == a;
    } else {
      assert (a + b)[..|a + b| - 1] == a + b[..|b| - 1];
      DetectAnomaliesConcat(a, b[..|b| - 1]);
    }
  }

  /** One row is reported exactly when its amount is above the threshold. */
  lemma {:induction false} DetectAnomaliesSingle(row: ExpenseRow)
    ensures DetectAnomalies([row]) == if row.amount > Threshold then [Flag(row)] else []
  {
    assert [row][..0] == [];
  }

  /** `forecastSavings()`: the same forecast whatever the data. */
  function ForecastSavings(): (f: Forecast)
    ensures f.sixMonths == 42000.0 && f.twelveMonths == 68000.0
  {
    Forecast(42000.0, 68000.0)
  }
}

/** The dashboard page: the list of years the year selector offers, from the
    latest to the earliest year of the loaded expenses, and the effect that
    moves the selection into that list. */
module Dashboard {
  import opened Values
  import opened Transactions

  /** The years of the validly dated expenses, in the expenses' order:
      `.map(e => new Date(e.transaction_date).getFullYear()).filter(y => !isNaN(y))`. */
  function ValidYears(expenses: seq<Txn>): (ys: seq<int>)
    ensures forall y :: y in ys <==> exists i | 0 <= i < |expenses| :: DateOf(expenses[i]).Some? && DateOf(expenses[i]).value.0 == y
    ensures |ys| <= |expenses|
  {
    if expenses == [] then []
    else
      var init, last := expenses[..|expenses| - 1], expenses[|expenses| - 1];
      var ys := ValidYears(init);
      assert forall i | 0 <= i < |init| :: init[i] == expenses[i];
      if DateOf(last).Some? then ys + [DateOf(last).value.0] else ys
  }

  /** `Math.max(...ys)`. */
  function MaxOf(ys: seq<int>): (m: int)
    requires ys != []
    ensures m in ys && forall i | 0 <= i < |ys| :: ys[i] <= m
  {
    if |ys| == 1 then ys[0]
    else
      var m := MaxOf(ys[..|ys| - 1]);
      assert forall i | 0 <= i < |ys| - 1 :: ys[..|ys| - 1][i] == ys[i];
      if ys[|ys| - 1] > m then ys[|ys| - 1] else m
  }

  /** `Math.min(...ys)`. */
  function MinOf(ys: seq<int>): (m: int)
    requires ys != []
    ensures m in ys && forall i | 0 <= i < |ys| :: m <= ys[i]
  {
    if |ys| == 1 then ys[0]
    else
      var m := MinOf(ys[..|ys| - 1]);
      assert forall i | 0 <= i < |ys| - 1 :: ys[..|ys| - 1][i] == ys[i];
      if ys[|ys| - 1] < m then ys[|ys| - 1] else m
  }

  predicate StrictlyDescending(ys: seq<int>)
  {
    forall i, j | 0 <= i < j < |ys| :: ys[i] > ys[j]
  }

  /** `availableYears` for the loaded `expenses` and the clock's year
      `currentYear`: every year from the latest to the earliest valid year,
      or the current year alone when no expense has a valid date. */
  method AvailableYears(expenses: seq<Txn>, currentYear: int) returns (years: seq<int>)
    ensures ValidYears(expenses) == [] ==> years == [currentYear]
    ensures ValidYears(expenses) != [] ==>
              var hi, lo := MaxOf(ValidYears(expenses)), MinOf(ValidYears(expenses));
              && |years| == hi - lo + 1
              && (forall k | 0 <= k < |years| :: years[k] == hi - k)
              && years[0] == hi && years[|years| - 1] == lo
    ensures years != [] && StrictlyDescending(years)
    ensures forall y :: y in ValidYears(expenses) ==> y in years
  {
    if |expenses| == 0 {
      return [currentYear];
    }
    var valid := ValidYears(expenses);
    if |valid| == 0 {
      return [currentYear];
    }
    var minYear := MinOf(valid);
    var maxYear := MaxOf(valid);
    var yearRange := [];
    var i := maxYear;
    while i >= minYear
      invariant minYear - 1 <= i <= maxYear
      invariant |yearRange| == maxYear - i
      invariant forall k | 0 <= k < |yearRange| :: yearRange[k] == maxYear - k
      decreases i - minYear
    {
      yearRange := yearRange + [i];
      i := i - 1;
    }
    years := yearRange;
    forall y | y in valid ensures y in years {
      var j :| 0 <= j < |valid| && valid[j] == y;
      assert years[maxYear - y] == y;
    }
  }

  /** The dashboard's selection state. */
  class DashboardState {
    var selectedYear: int

    /** `useState(new Date().getFullYear())`. */
    constructor (currentYear: int)
      ensures selectedYear == currentYear
    {
      selectedYear := currentYear;
    }

    /** The effect on `[availableYears, selectedYear]`: a selection outside a
        non-empty list moves to its first, latest, year; otherwise it stays. */
    method SyncSelectedYear(availableYears: seq<int>)
      modifies this
      ensures availableYears != [] && old(selectedYear) !in availableYears ==> selectedYear == availableYears[0]
      ensures availableYears == [] || old(selectedYear) in availableYears ==> selectedYear == old(selectedYear)
      ensures availableYears != [] ==> selectedYear in availableYears
    {
      if |availableYears| > 0 && selectedYear !in availableYears {
        selectedYear := availableYears[0];
      }
    }
  }
}

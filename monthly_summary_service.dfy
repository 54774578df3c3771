/** The two reads of `monthly_summary`: the range query, ascending by month,
    and the lookup of one month that answers "none" rather than failing. */
module MonthlySummaryService {
  import opened Values
  import opened Dates
  import opened Sorting
  import opened Tables

  const FetchFailed := "Failed to fetch monthly summary"
  const BadMonth := "Month must be in YYYY-MM-01 format"

  /** A query bound takes effect when it is present and truthy, that is a
      non-empty string. */
  predicate Applied(bound: Option<string>)
  {
    bound.Some? && bound.value != ""
  }

  /** A bound the store cannot compare the `month` column with, one that is
      no `YYYY-MM-DD` date of the calendar (such as "2026-02-31"), makes the
      query fail. */
  predicate Rejected(bound: Option<string>)
  {
    Applied(bound) && !IsStoreDate(bound.value)
  }

  /** `month >= from` (when `from` applies) and `month <= to` (when `to`
      applies), compared as calendar dates. */
  predicate WithinBounds(s: Summary, from: Option<string>, to: Option<string>)
  {
    && (Applied(from) ==> DateRank(s.month) >= DateRank(from.value))
    && (Applied(to) ==> DateRank(s.month) <= DateRank(to.value))
  }

  /** The rows `.gte` and `.lte` let through, in their stored order. */
  function Bounded(rows: seq<Summary>, from: Option<string>, to: Option<string>): (r: seq<Summary>)
    ensures forall s :: s in r <==> s in rows && WithinBounds(s, from, to)
    ensures forall s :: multiset(r)[s] == if WithinBounds(s, from, to) then multiset(rows)[s] else 0
    ensures (forall i | 0 <= i < |rows| :: WithinBounds(rows[i], from, to)) ==> r == rows
  {
    if rows == [] then []
    else
      var init, last := rows[..|rows| - 1], rows[|rows| - 1];
      assert rows == init + [last];
      var r := Bounded(init, from, to);
      if WithinBounds(last, from, to) then r + [last] else r
  }

  /** The rank of a row's month, negated so that sorting descending by it
      sorts ascending by month. */
  function AscendingKey(s: Summary): real
  {
    -(DateRank(s.month) as real)
  }

  /** `getMonthlySummary({ from, to })` over the stored rows `rows` (in any
      order): the rows within the applied bounds, earliest month first, or
      the fetch error when a bound is not a date the store accepts. */
  function GetMonthlySummary(rows: seq<Summary>, from: Option<string>, to: Option<string>): (r: Result<seq<Summary>>)
    ensures r.Err? <==> Rejected(from) || Rejected(to)
    ensures r.Err? ==> r.msg == FetchFailed
    ensures r.Ok? ==>
              && (forall s :: s in r.value <==> s in rows && WithinBounds(s, from, to))
              && (forall i, j | 0 <= i < j < |r.value| :: DateRank(r.value[i].month) <= DateRank(r.value[j].month))
              && (forall s :: multiset(r.value)[s] == if WithinBounds(s, from, to) then multiset(rows)[s] else 0)
  {
    if Rejected(from) || Rejected(to) then Err(FetchFailed)
    else
      var selected := Bounded(rows, from, to);
      SortDescCorrect(selected, AscendingKey);
      Ok(SortDesc(selected, AscendingKey))
  }

  /** Without an applied bound every stored row comes back, reordered only. */
  lemma {:induction false} UnboundedReturnsAll(rows: seq<Summary>, from: Option<string>, to: Option<string>)
    requires !Applied(from) && !Applied(to)
    ensures GetMonthlySummary(rows, from, to).Ok?
    ensures multiset(GetMonthlySummary(rows, from, to).value) == multiset(rows)
  {
    var r := GetMonthlySummary(rows, from, to);
    assert r.Ok?;
    forall s ensures multiset(r.value)[s] == multiset(rows)[s] {
      assert WithinBounds(s, from, to);
    }
  }

  /** `rows` lists the summary table: exactly its rows, each under its own key. */
  ghost predicate Enumerates(rows: seq<Summary>, table: map<string, Summary>)
  {
    && (forall s | s in rows :: s.month in table && table[s.month] == s)
    && (forall m | m in table :: table[m] in rows)
  }

  /** `getMonthlySummaryByMonth`: the month check, then the row of the month
      or none; a month key that is no date the store accepts (a month 00 or
      13 to 99, or the year 0000) makes the store fail. */
  function GetMonthlySummaryByMonth(month: string, table: map<string, Summary>): (r: Result<Option<Summary>>)
    ensures r.Err? <==> !IsMonthKey(month) || !IsStrictMonthKey(month) || Year(month) == 0
    ensures !IsMonthKey(month) ==> r == Err(BadMonth)
    ensures IsMonthKey(month) && !IsStoreDate(month) ==> r == Err(FetchFailed)
    ensures r.Ok? ==> (r.value.Some? <==> month in table)
    ensures r.Ok? && r.value.Some? ==> r.value.value == table[month]
  {
    if !IsMonthKey(month) then Err(BadMonth)
    else if !IsStoreDate(month) then
      MonthKeyStoreDateIff(month);
      Err(FetchFailed)
    else
      MonthKeyStoreDateIff(month);
      if month in table then Ok(Some(table[month])) else Ok(None)
  }

  lemma {:induction false} DateRankInjective(a: string, b: string)
    requires IsDateShaped(a) && IsDateShaped(b) && DateRank(a) == DateRank(b)
    ensures a == b
  {
    DateStringOrder(a, b);
    DateStringOrder(b, a);
    LexLeAntisymmetric(a, b);
  }

  /** A month key within the bounds `[month, month]` is `month` itself. */
  lemma {:induction false} OneMonthBounds(s: Summary, month: string)
    requires IsMonthKey(s.month) && IsMonthKey(month)
    ensures WithinBounds(s, Some(month), Some(month)) <==> s.month == month
  {
    if WithinBounds(s, Some(month), Some(month)) {
      DateRankInjective(s.month, month);
    }
  }

  /** The lookup of one month agrees with the range query from that month to
      that month: both find the month's row, or nothing. */
  lemma {:induction false} ByMonthIsOneMonthRange(rows: seq<Summary>, table: map<string, Summary>, month: string)
    requires Enumerates(rows, table)
    requires forall m | m in table :: IsMonthKey(m) && table[m].month == m
    requires IsMonthKey(month) && IsStoreDate(month)
    ensures GetMonthlySummary(rows, Some(month), Some(month)).Ok?
    ensures forall s :: s in GetMonthlySummary(rows, Some(month), Some(month)).value
                        <==> GetMonthlySummaryByMonth(month, table) == Ok(Some(s))
  {
    var q := GetMonthlySummary(rows, Some(month), Some(month));
    var b := GetMonthlySummaryByMonth(month, table);
    assert b == if month in table then Ok(Some(table[month])) else Ok(None);
    forall s | s in q.value ensures b == Ok(Some(s)) {
      OneMonthBounds(s, month);
    }
    forall s | b == Ok(Some(s)) ensures s in q.value {
      assert s == table[month];
      OneMonthBounds(s, month);
    }
  }
}

/** The monthly insights page: conversion of amounts into the display currency,
    the category table with each category's share of the month's expense,
    largest first, and the key of the current month. */
module MonthlyInsights {
  import opened Values
  import opened Dates
  import opened Groups
  import opened Sorting

  const BaseCurrency := "INR"

  /** `EXCHANGE_RATES`: the rate from rupees into each display currency. */
  const ExchangeRates: map<string, real> := map["INR" := 1.0, "USD" := 0.012]

  /** `EXCHANGE_RATES[currency]` is truthy: the currency has a non-zero rate. */
  predicate HasRate(currency: string)
  {
    currency in ExchangeRates && ExchangeRates[currency] != 0.0
  }

  /** `convertCurrency(value, currency)`: a finite number times the rate of a
      known currency, and 0 for anything else. */
  function ConvertCurrency(value: Value, currency: string): (r: real)
    ensures !value.Num? || !HasRate(currency) ==> r == 0.0
    ensures value.Num? && currency == BaseCurrency ==> r == value.x
    ensures value.Num? && currency == "USD" ==> r == value.x * 0.012
  {
    if value.Num? && HasRate(currency) then value.x * ExchangeRates[currency] else 0.0
  }

  /** Conversion is linear in the amount, so totals convert like their parts. */
  lemma {:induction false} ConvertAdditive(x: real, y: real, currency: string)
    ensures ConvertCurrency(Num(x + y), currency)
            == ConvertCurrency(Num(x), currency) + ConvertCurrency(Num(y), currency)
  {
    if HasRate(currency) {
      var k := ExchangeRates[currency];
      assert (x + y) * k == x * k + y * k;
    }
  }

  /** No rate exceeds 1, so a converted non-negative amount lies between 0 and
      the amount in rupees. */
  lemma {:induction false} ConvertBounded(x: real, currency: string)
    requires x >= 0.0
    ensures 0.0 <= ConvertCurrency(Num(x), currency) <= x
  {
    if HasRate(currency) {
      var k := ExchangeRates[currency];
      assert 0.0 < k <= 1.0;
      assert x * k <= x * 1.0;
    }
  }

  /** `{ category, amount, percentage }`. */
  datatype CategoryStat = CategoryStat(category: string, amount: real, percentage: real)

  /** `totalExpense ? (amount / totalExpense) * 100 : 0`. */
  function Percentage(amount: real, total: real): (p: real)
    ensures total == 0.0 ==> p == 0.0
    ensures total != 0.0 ==> p * total == amount * 100.0
    ensures total > 0.0 && 0.0 <= amount <= total ==> 0.0 <= p <= 100.0
  {
    if total != 0.0 then (amount / total) * 100.0 else 0.0
  }

  function Stat(e: Entry<string>, total: real): CategoryStat
  {
    CategoryStat(e.key, e.amount, Percentage(e.amount, total))
  }

  /** `Object.entries(categories).map(...)`, in the object's key order. */
  function Stats(es: seq<Entry<string>>, total: real): (ms: seq<CategoryStat>)
    ensures |ms| == |es| && forall i | 0 <= i < |es| :: ms[i] == Stat(es[i], total)
  {
    if es == [] then [] else [Stat(es[0], total)] + Stats(es[1..], total)
  }

  function StatAmount(s: CategoryStat): real
  {
    s.amount
  }

  function Categories(ss: seq<CategoryStat>): (cs: seq<string>)
    ensures |cs| == |ss| && forall i | 0 <= i < |ss| :: cs[i] == ss[i].category
  {
    if ss == [] then [] else [ss[0].category] + Categories(ss[1..])
  }

  /** `safeData.category_wise_expenses ?? {}`: the entries of the category
      object, none when it is absent. */
  function CategoryEntries(categories: Option<seq<Entry<string>>>): seq<Entry<string>>
  {
    if categories.Some? then categories.value else []
  }

  /** `safeData.total_expense ?? 0`. */
  function TotalExpense(totalExpense: Option<real>): real
  {
    if totalExpense.Some? then totalExpense.value else 0.0
  }

  /** `categoryStats`: one row per entry of the category object, with its
      share of the total, sorted by amount, largest first. The source's sort
      is stable; the order of equal amounts is not stated here. */
  function CategoryStats(categories: Option<seq<Entry<string>>>, totalExpense: Option<real>): (r: seq<CategoryStat>)
    ensures multiset(r) == multiset(Stats(CategoryEntries(categories), TotalExpense(totalExpense)))
    ensures SortedDesc(r, StatAmount)
  {
    var ms := Stats(CategoryEntries(categories), TotalExpense(totalExpense));
    SortDescCorrect(ms, StatAmount);
    SortDesc(ms, StatAmount)
  }

  /** The rows are the entries' rows, each with its share of the total. */
  lemma {:induction false} CategoryStatsRows(categories: Option<seq<Entry<string>>>, totalExpense: Option<real>)
    ensures var es, total := CategoryEntries(categories), TotalExpense(totalExpense);
            var r := CategoryStats(categories, totalExpense);
            && |r| == |es|
            && (forall s :: s in r <==> exists i | 0 <= i < |es| :: s == Stat(es[i], total))
            && (forall i | 0 <= i < |r| :: r[i].percentage == Percentage(r[i].amount, total))
  {
    var es, total := CategoryEntries(categories), TotalExpense(totalExpense);
    var r := CategoryStats(categories, totalExpense);
    var ms := Stats(es, total);
    assert |r| == |es| by {
      assert |multiset(r)| == |multiset(ms)|;
    }
    forall s ensures s in r <==> exists i | 0 <= i < |es| :: s == Stat(es[i], total) {
      assert s in r <==> s in multiset(r);
      assert s in ms <==> s in multiset(ms);
      if s in ms {
        var i :| 0 <= i < |ms| && ms[i] == s;
        assert s == Stat(es[i], total);
      }
    }
    forall i | 0 <= i < |r| ensures r[i].percentage == Percentage(r[i].amount, total) {
      assert r[i] in r;
    }
  }

  /** `categoryStats[0]`: undefined when there are no categories. */
  function TopCategory(stats: seq<CategoryStat>): Option<CategoryStat>
  {
    if stats == [] then None else Some(stats[0])
  }

  /** The top category has the largest amount of all the entries; there is
      one exactly when the category object has an entry. */
  lemma {:induction false} TopCategoryIsLargest(categories: Option<seq<Entry<string>>>, totalExpense: Option<real>)
    ensures var es := CategoryEntries(categories);
            var top := TopCategory(CategoryStats(categories, totalExpense));
            && (top.Some? <==> |es| > 0)
            && (top.Some? ==> (exists i | 0 <= i < |es| :: top.value.category == es[i].key && top.value.amount == es[i].amount)
                              && forall i | 0 <= i < |es| :: top.value.amount >= es[i].amount)
  {
    var es, total := CategoryEntries(categories), TotalExpense(totalExpense);
    var ms := Stats(es, total);
    var r := CategoryStats(categories, totalExpense);
    CategoryStatsRows(categories, totalExpense);
    if |r| > 0 {
      assert r[0] in r;
      forall i | 0 <= i < |es| ensures r[0].amount >= es[i].amount {
        assert ms[i] in multiset(r);
        var j :| 0 <= j < |r| && r[j] == ms[i];
        if j > 0 {
          assert StatAmount(r[0]) >= StatAmount(r[j]);
        }
      }
    }
  }

  /** A sequence without repeats holds each value at most once. */
  lemma {:induction false} DistinctOnce<T>(s: seq<T>, x: T)
    requires Distinct(s)
    ensures multiset(s)[x] <= 1
  {
    if s != [] {
      var init := s[..|s| - 1];
      assert s == init + [s[|s| - 1]];
      assert Distinct(init) by {
        forall i, j | 0 <= i < j < |init| ensures init[i] != init[j] {
          assert init[i] == s[i] && init[j] == s[j];
        }
      }
      DistinctOnce(init, x);
      if s[|s| - 1] == x {
        assert x !in init by {
          forall i | 0 <= i < |init| ensures init[i] != x {
            assert init[i] == s[i];
          }
        }
      }
    }
  }

  lemma {:induction false} RepeatTwice<T>(s: seq<T>, i: nat, j: nat)
    requires i < j < |s| && s[i] == s[j]
    ensures multiset(s)[s[i]] >= 2
  {
    var a, b := s[..j], s[j..];
    assert s == a + b;
    assert s[i] == a[i];
    assert s[j] == b[0];
  }

  /** Each category of the object has exactly one row: the rows' categories
      are the object's keys, none repeated. */
  lemma {:induction false} OneRowPerCategory(categories: Option<seq<Entry<string>>>, totalExpense: Option<real>)
    requires Distinct(KeysOf(CategoryEntries(categories)))
    ensures var cs := Categories(CategoryStats(categories, totalExpense));
            && Distinct(cs)
            && forall c :: c in cs <==> c in KeysOf(CategoryEntries(categories))
  {
    var es, total := CategoryEntries(categories), TotalExpense(totalExpense);
    var r := CategoryStats(categories, totalExpense);
    PermutedRowsDistinct(es, total, r);
    PermutedRowsCover(es, total, r);
  }

  /** Row `i` of a reordering of the entries' rows is the row of some entry. */
  lemma {:induction false} RowOrigin(es: seq<Entry<string>>, total: real, r: seq<CategoryStat>, i: nat) returns (p: nat)
    requires multiset(r) == multiset(Stats(es, total)) && i < |r|
    ensures p < |es| && r[i] == Stat(es[p], total)
  {
    var ms := Stats(es, total);
    assert r[i] in multiset(r);
    assert r[i] in ms;
    p :| 0 <= p < |ms| && ms[p] == r[i];
  }

  lemma {:induction false} PermutedRowsDistinct(es: seq<Entry<string>>, total: real, r: seq<CategoryStat>)
    requires Distinct(KeysOf(es))
    requires multiset(r) == multiset(Stats(es, total))
    ensures Distinct(Categories(r))
  {
    var ms := Stats(es, total);
    var cs := Categories(r);
    assert Distinct(ms) by {
      forall p, q | 0 <= p < q < |ms| ensures ms[p] != ms[q] {
        assert KeysOf(es)[p] != KeysOf(es)[q];
      }
    }
    forall i, j | 0 <= i < j < |cs| ensures cs[i] != cs[j] {
      if cs[i] == cs[j] {
        var p := RowOrigin(es, total, r, i);
        var q := RowOrigin(es, total, r, j);
        assert KeysOf(es)[p] == KeysOf(es)[q];
        RepeatTwice(r, i, j);
        DistinctOnce(ms, r[i]);
        assert false;
      }
    }
  }

  lemma {:induction false} PermutedRowsCover(es: seq<Entry<string>>, total: real, r: seq<CategoryStat>)
    requires multiset(r) == multiset(Stats(es, total))
    ensures forall c :: c in Categories(r) <==> c in KeysOf(es)
  {
    var ms := Stats(es, total);
    var cs := Categories(r);
    forall c ensures c in cs <==> c in KeysOf(es) {
      if c in cs {
        var i :| 0 <= i < |cs| && cs[i] == c;
        var p := RowOrigin(es, total, r, i);
        assert KeysOf(es)[p] == c;
      }
      if c in KeysOf(es) {
        var p :| 0 <= p < |es| && KeysOf(es)[p] == c;
        assert ms[p] in multiset(r);
        var i :| 0 <= i < |r| && r[i] == ms[p];
        assert cs[i] == c;
      }
    }
  }

  /** `getCurrentMonth()` for a clock reading `year` and month index
      `monthIndex` (0 for January): the key `YYYY-MM-01` of that month. */
  function GetCurrentMonth(year: nat, monthIndex: int): (key: string)
    requires 0 <= monthIndex < 12
    ensures |key| >= 7 && key[|key| - 3..] == "-01"
    ensures 1000 <= year <= 9999 ==>
              && IsStrictMonthKey(key)
              && Year(key) == year
              && Month(key) == monthIndex + 1
  {
    var key := FormatMonthKey(year, monthIndex + 1);
    if 1000 <= year <= 9999 then
      FormatMonthKeyRoundTrip(year, monthIndex + 1);
      key
    else
      key
  }
}

/** `processDashboardData`: the dashboard's view of all transactions, for a
    selected year and month name. */
module DashboardHelper {
  import opened Values
  import opened Text
  import opened Groups
  import opened Transactions
  import CurrencyUtils

  const Months: seq<string> := ["Jan", "Feb", "Mar", "Apr", "May", "Jun", "Jul", "Aug", "Sep", "Oct", "Nov", "Dec"]

  /** The fixed monthly income every history point shows. */
  const MockIncome := 50000.0

  /** `s.indexOf(x)`: the first position of `x`, or -1. */
  function IndexOf(s: seq<string>, x: string): (i: int)
    ensures -1 <= i < |s|
    ensures i == -1 <==> x !in s
    ensures 0 <= i ==> s[i] == x && forall j | 0 <= j < i :: s[j] != x
  {
    if s == [] then -1
    else if s[0] == x then 0
    else
      var j := IndexOf(s[1..], x);
      if j == -1 then -1 else j + 1
  }

  /** `t.amount`, a number for every record the dashboard is given. */
  function Amount(t: Txn): real
  {
    var a := Get(t, "amount");
    if a.Num? then a.x else 0.0
  }

  predicate NumericAmounts(ts: seq<Txn>)
  {
    forall i | 0 <= i < |ts| :: Get(ts[i], "amount").Num?
  }

  /** `new Date(t.transaction_date).getFullYear() === year`. */
  predicate InYear(t: Txn, year: int)
  {
    DateOf(t).Some? && DateOf(t).value.0 == year
  }

  /** `new Date(t.transaction_date).getMonth() === m`. */
  predicate InMonth(t: Txn, m: int)
  {
    DateOf(t).Some? && DateOf(t).value.1 == m
  }

  /** The filter on the selected year, in the records' order. */
  function YearTxns(ts: seq<Txn>, year: int): (r: seq<Txn>)
    ensures forall t {:trigger t in r} :: t in r <==> t in ts && InYear(t, year)
    ensures forall t :: multiset(r)[t] == if InYear(t, year) then multiset(ts)[t] else 0
  {
    if ts == [] then []
    else
      var init, last := ts[..|ts| - 1], ts[|ts| - 1];
      assert ts == init + [last];
      var r := YearTxns(init, year);
      if InYear(last, year) then r + [last] else r
  }

  /** The filter on a month index, in the records' order. */
  function MonthTxns(ts: seq<Txn>, m: int): (r: seq<Txn>)
    ensures forall t {:trigger t in r} :: t in r <==> t in ts && InMonth(t, m)
    ensures forall t :: multiset(r)[t] == if InMonth(t, m) then multiset(ts)[t] else 0
  {
    if ts == [] then []
    else
      var init, last := ts[..|ts| - 1], ts[|ts| - 1];
      assert ts == init + [last];
      var r := MonthTxns(init, m);
      if InMonth(last, m) then r + [last] else r
  }

  function AmountList(ts: seq<Txn>): (xs: seq<real>)
    ensures |xs| == |ts| && forall i | 0 <= i < |ts| :: xs[i] == Amount(ts[i])
  {
    if ts == [] then [] else [Amount(ts[0])] + AmountList(ts[1..])
  }

  /** `ts.reduce((sum, t) => sum + t.amount, 0)`. */
  function Spending(ts: seq<Txn>): real
  {
    Sum(AmountList(ts))
  }

  lemma {:induction false} SpendingSnoc(ts: seq<Txn>, t: Txn)
    ensures Spending(ts + [t]) == Spending(ts) + Amount(t)
  {
    assert AmountList(ts + [t]) == AmountList(ts) + [Amount(t)];
    assert (AmountList(ts) + [Amount(t)])[..|ts|] == AmountList(ts);
  }

  datatype HistoryPoint = HistoryPoint(name: string, income: real, expense: real)
  datatype CategoryShare = CategoryShare(name: string, amount: real)
  datatype Asset = Asset(name: string, value: real)

  datatype DashboardData = DashboardData(
    currency: Value,
    monthlySpending: real,
    history: seq<HistoryPoint>,
    categories: seq<CategoryShare>,
    assets: seq<Asset>,
    notification: string)

  /** `transactions.length > 0 ? transactions[0].currency : 'IR'`. */
  function Currency(ts: seq<Txn>): Value
  {
    if |ts| > 0 then Get(ts[0], "currency") else Str("IR")
  }

  /** `(CATEGORY_CONFIG[code] || CATEGORY_CONFIG.OTHER).label`. */
  function ConfigLabel(code: string): (r: string)
    ensures code !in ["FOOD", "TRANSPORT", "SHOPPING", "UTILITIES", "OTHER"] ==> r == "Others"
  {
    if code == "FOOD" then "Food & Dining"
    else if code == "TRANSPORT" then "Transport"
    else if code == "SHOPPING" then "Shopping"
    else if code == "UTILITIES" then "Bills & Utils"
    else "Others"
  }

  /** `months.map(...)`: one point per month of the year's records. */
  function History(yearly: seq<Txn>): (h: seq<HistoryPoint>)
    ensures |h| == 12
    ensures forall k | 0 <= k < 12 :: h[k] == HistoryPoint(Months[k], MockIncome, Spending(MonthTxns(yearly, k)))
  {
    seq(12, k requires 0 <= k < 12 => HistoryPoint(Months[k], MockIncome, Spending(MonthTxns(yearly, k))))
  }

  /** The items the category map sums: the property key of each record's code
      and its amount. */
  function CategoryItems(ts: seq<Txn>): (items: seq<Entry<string>>)
    ensures |items| == |ts| && forall i | 0 <= i < |ts| :: items[i] == Entry(JsString(CodeKey(ts[i])), Amount(ts[i]))
  {
    if ts == [] then [] else [Entry(JsString(CodeKey(ts[0])), Amount(ts[0]))] + CategoryItems(ts[1..])
  }

  /** `Object.keys(categoryMap).map(...)`. */
  function Shares(g: seq<Entry<string>>): (cs: seq<CategoryShare>)
    ensures |cs| == |g| && forall i | 0 <= i < |g| :: cs[i] == CategoryShare(ConfigLabel(g[i].key), g[i].amount)
  {
    if g == [] then [] else [CategoryShare(ConfigLabel(g[0].key), g[0].amount)] + Shares(g[1..])
  }

  /** `categories.map(c => ({ name: c.name, value: c.amount }))`: the asset
      list has the categories' names and amounts, in the same order. */
  function Assets(cs: seq<CategoryShare>): (r: seq<Asset>)
    ensures |r| == |cs|
    ensures forall i | 0 <= i < |cs| :: r[i].name == cs[i].name && r[i].value == cs[i].amount
  {
    if cs == [] then [] else [Asset(cs[0].name, cs[0].amount)] + Assets(cs[1..])
  }

  /** The categories seen as name/amount entries, so that the grouping
      module's `AmountsOf` reads their amounts. */
  function ShareEntries(cs: seq<CategoryShare>): (es: seq<Entry<string>>)
    ensures |es| == |cs|
    ensures forall i | 0 <= i < |cs| :: es[i] == Entry(cs[i].name, cs[i].amount)
  {
    if cs == [] then [] else [Entry(cs[0].name, cs[0].amount)] + ShareEntries(cs[1..])
  }

  /** The records of the selected month: the year's records in the month the
      name denotes. */
  function Monthly(txns: seq<Txn>, year: int, monthName: string): seq<Txn>
  {
    MonthTxns(YearTxns(txns, year), IndexOf(Months, monthName))
  }

  /** `processDashboardData(transactions, selectedYear, selectedMonthStr)`: only
      the currency lookup can throw. */
  method ProcessDashboardData(txns: seq<Txn>, selectedYear: int, selectedMonth: string) returns (r: Result<DashboardData>)
    requires NumericAmounts(txns)
    ensures r.Err? <==> CurrencyUtils.GetCurrencySymbol(Currency(txns)).Err?
    ensures r.Err? ==> r.msg == CurrencyUtils.NotAString
    ensures r.Ok? ==>
              var d := r.value;
              var monthly := Monthly(txns, selectedYear, selectedMonth);
              && d.currency == Currency(txns)
              && d.monthlySpending == Spending(monthly)
              && d.history == History(YearTxns(txns, selectedYear))
              && d.categories == Shares(Grouped(CategoryItems(monthly)))
              && d.assets == Assets(d.categories)
              && d.notification == "You spent " + CurrencyUtils.GetCurrencySymbol(Currency(txns)).value
                                   + NumberText(d.monthlySpending) + " in " + selectedMonth
    ensures r.Ok? ==>
              var d := r.value;
              && Sum(AmountsOf(ShareEntries(d.categories))) == d.monthlySpending
              && (selectedMonth in Months ==> d.monthlySpending == d.history[IndexOf(Months, selectedMonth)].expense)
              && (selectedMonth !in Months ==> d.monthlySpending == 0.0 && d.categories == [])
  {
    var yearly := YearTxns(txns, selectedYear);
    var monthIndex := IndexOf(Months, selectedMonth);
    var monthly := MonthTxns(yearly, monthIndex);
    var spending := Spending(monthly);
    var history := History(yearly);
    var categoryMap := GroupSum(CategoryItems(monthly));
    var categories := Shares(categoryMap);
    var assets := Assets(categories);
    var currency := Currency(txns);
    var symbol := CurrencyUtils.GetCurrencySymbol(currency);
    if symbol.Err? {
      return Err(symbol.msg);
    }
    CategoriesAddUp(monthly);
    if selectedMonth !in Months {
      UnknownMonthEmpty(yearly, monthIndex);
    }
    r := Ok(DashboardData(currency, spending, history, categories, assets,
                          "You spent " + symbol.value + NumberText(spending) + " in " + selectedMonth));
  }

  /** The selected month's records: exactly the records dated in that year
      and month. */
  lemma {:induction false} MonthlySelection(txns: seq<Txn>, year: int, monthName: string)
    ensures forall t :: t in Monthly(txns, year, monthName) <==>
              t in txns && InYear(t, year) && InMonth(t, IndexOf(Months, monthName))
  {
  }

  /** A month index that no date has, -1 for an unknown month name above all,
      selects nothing. */
  lemma {:induction false} UnknownMonthEmpty(ts: seq<Txn>, m: int)
    requires m < 0 || m >= 12
    ensures MonthTxns(ts, m) == []
  {
    if ts != [] {
      UnknownMonthEmpty(ts[..|ts| - 1], m);
    }
  }

  /** The category map holds one entry per code of the month's records, in
      order of first occurrence, with that code's sum; its entries add up to
      the month's spending. */
  lemma {:induction false} CategoriesAddUp(monthly: seq<Txn>)
    ensures var g := Grouped(CategoryItems(monthly));
            && Distinct(KeysOf(g))
            && KeysOf(g) == Dedup(KeysOf(CategoryItems(monthly)))
            && (forall i | 0 <= i < |g| :: g[i].amount == Total(CategoryItems(monthly), g[i].key))
            && Sum(AmountsOf(ShareEntries(Shares(g)))) == Spending(monthly)
  {
    var items := CategoryItems(monthly);
    var g := Grouped(items);
    GroupedFacts(items);
    KeysOfGrouped(items);
    ShareAmountsOfShares(g);
    CategoryItemAmounts(monthly);
  }

  lemma {:induction false} ShareAmountsOfShares(g: seq<Entry<string>>)
    ensures AmountsOf(ShareEntries(Shares(g))) == AmountsOf(g)
  {
    var xs, ys := AmountsOf(ShareEntries(Shares(g))), AmountsOf(g);
    assert |xs| == |ys|;
    forall i | 0 <= i < |xs| ensures xs[i] == ys[i] {
    }
  }

  lemma {:induction false} CategoryItemAmounts(ts: seq<Txn>)
    ensures AmountsOf(CategoryItems(ts)) == AmountList(ts)
  {
    var xs, ys := AmountsOf(CategoryItems(ts)), AmountList(ts);
    assert |xs| == |ys|;
    forall i | 0 <= i < |xs| ensures xs[i] == ys[i] {
    }
  }

  /** Codes without an entry of their own in the category table share the
      label 'Others' but keep separate entries: ENTERTAINMENT and OTHER are
      two categories named alike. */
  lemma {:induction false} UnconfiguredCodesStaySeparate(monthly: seq<Txn>, i: nat, j: nat) returns (a: nat, b: nat)
    requires i < |monthly| && j < |monthly|
    requires JsString(CodeKey(monthly[i])) == "ENTERTAINMENT" && JsString(CodeKey(monthly[j])) == "OTHER"
    ensures var g := Grouped(CategoryItems(monthly));
            && a < |g| && b < |g| && a != b
            && g[a].key == "ENTERTAINMENT" && g[b].key == "OTHER"
            && Shares(g)[a].name == "Others" && Shares(g)[b].name == "Others"
  {
    var items := CategoryItems(monthly);
    assert items[i].key == "ENTERTAINMENT" && items[j].key == "OTHER";
    a, b := SeparateGroups(items, i, j);
  }

  lemma {:induction false} SeparateGroups(items: seq<Entry<string>>, i: nat, j: nat) returns (a: nat, b: nat)
    requires i < |items| && j < |items|
    requires items[i].key == "ENTERTAINMENT" && items[j].key == "OTHER"
    ensures var g := Grouped(items);
            && a < |g| && b < |g| && a != b
            && g[a].key == "ENTERTAINMENT" && g[b].key == "OTHER"
            && Shares(g)[a].name == "Others" && Shares(g)[b].name == "Others"
  {
    a := GroupIndex(items, i);
    b := GroupIndex(items, j);
    assert "ENTERTAINMENT"[0] != "OTHER"[0];
    var g := Grouped(items);
    assert ConfigLabel("ENTERTAINMENT") == "Others" && ConfigLabel("OTHER") == "Others";
    assert Shares(g)[a].name == ConfigLabel(g[a].key);
    assert Shares(g)[b].name == ConfigLabel(g[b].key);
  }

  /** The position in the category map of the code of item `i`. */
  lemma {:induction false} GroupIndex(items: seq<Entry<string>>, i: nat) returns (a: nat)
    requires i < |items|
    ensures a < |Grouped(items)| && Grouped(items)[a].key == items[i].key
  {
    GroupedFacts(items);
    assert KeysOf(items)[i] == items[i].key;
    assert items[i].key in KeysOf(items);
    assert items[i].key in KeysOf(Grouped(items));
    a :| 0 <= a < |Grouped(items)| && KeysOf(Grouped(items))[a] == items[i].key;
  }

  /** Each record as (month index, amount); -1 stands for an invalid date. */
  function MonthItems(ts: seq<Txn>): (items: seq<Entry<int>>)
    ensures |items| == |ts|
    ensures forall i | 0 <= i < |ts| :: items[i].amount == Amount(ts[i])
    ensures forall i | 0 <= i < |ts| :: DateOf(ts[i]).Some? ==> items[i].key == DateOf(ts[i]).value.1
    ensures forall i | 0 <= i < |ts| :: DateOf(ts[i]).None? ==> items[i].key == -1
  {
    if ts == [] then []
    else
      var last := ts[|ts| - 1];
      MonthItems(ts[..|ts| - 1]) + [Entry(if DateOf(last).Some? then DateOf(last).value.1 else -1, Amount(last))]
  }

  lemma {:induction false} MonthSpendingIsTotal(ts: seq<Txn>, k: int)
    requires 0 <= k
    ensures Spending(MonthTxns(ts, k)) == Total(MonthItems(ts), k)
  {
    if ts != [] {
      var init, last := ts[..|ts| - 1], ts[|ts| - 1];
      MonthSpendingIsTotal(init, k);
      assert MonthItems(ts)[..|ts| - 1] == MonthItems(init);
      var e := MonthItems(ts)[|ts| - 1];
      assert e.key == k <==> InMonth(last, k);
      if InMonth(last, k) {
        SpendingSnoc(MonthTxns(init, k), last);
      }
    }
  }

  /** `Total(items, 0) + ... + Total(items, n - 1)`. */
  function RangeTotal(items: seq<Entry<int>>, n: nat): real
  {
    if n == 0 then 0.0 else RangeTotal(items, n - 1) + Total(items, n - 1)
  }

  lemma {:induction false} RangeTotalSnoc(items: seq<Entry<int>>, e: Entry<int>, n: nat)
    ensures RangeTotal(items + [e], n) == RangeTotal(items, n) + (if 0 <= e.key < n then e.amount else 0.0)
  {
    if n > 0 {
      RangeTotalSnoc(items, e, n - 1);
      var s := items + [e];
      assert s[..|s| - 1] == items;
    }
  }

  lemma {:induction false} RangeTotalEmpty(n: nat)
    ensures RangeTotal([], n) == 0.0
  {
    if n > 0 {
      RangeTotalEmpty(n - 1);
    }
  }

  /** Items whose keys all lie in `0 .. n - 1` are split by key without loss. */
  lemma {:induction false} KeysPartition(items: seq<Entry<int>>, n: nat)
    requires forall i | 0 <= i < |items| :: 0 <= items[i].key < n
    ensures RangeTotal(items, n) == Sum(AmountsOf(items))
  {
    if items == [] {
      RangeTotalEmpty(n);
    } else {
      var init, e := items[..|items| - 1], items[|items| - 1];
      assert items == init + [e];
      KeysPartition(init, n);
      RangeTotalSnoc(init, e, n);
      assert AmountsOf(items) == AmountsOf(init) + [e.amount];
      assert (AmountsOf(init) + [e.amount])[..|init|] == AmountsOf(init);
    }
  }

  /** Every dated record falls in exactly one of the twelve months, so the
      months' totals add up to the spending of all of them. */
  lemma {:induction false} MonthsPartition(ts: seq<Txn>)
    requires forall i | 0 <= i < |ts| :: DateOf(ts[i]).Some?
    ensures RangeTotal(MonthItems(ts), 12) == Spending(ts)
  {
    var items := MonthItems(ts);
    KeysPartition(items, 12);
    assert AmountsOf(items) == AmountList(ts);
  }

  function Expenses(h: seq<HistoryPoint>): (xs: seq<real>)
    ensures |xs| == |h| && forall i | 0 <= i < |h| :: xs[i] == h[i].expense
  {
    if h == [] then [] else [h[0].expense] + Expenses(h[1..])
  }

  lemma {:induction false} SumPrefixStep(xs: seq<real>, n: nat)
    requires 0 < n <= |xs|
    ensures Sum(xs[..n]) == Sum(xs[..n - 1]) + xs[n - 1]
  {
    assert xs[..n][..n - 1] == xs[..n - 1];
  }

  /** A sequence whose `k`-th value is the total of key `k` sums, over its
      first `n` values, to the range total of the keys `0 .. n - 1`. */
  lemma {:induction false} PrefixIsRangeTotal(xs: seq<real>, items: seq<Entry<int>>, n: nat)
    requires n <= |xs| && forall k | 0 <= k < n :: xs[k] == Total(items, k)
    ensures Sum(xs[..n]) == RangeTotal(items, n)
  {
    if n > 0 {
      PrefixIsRangeTotal(xs, items, n - 1);
      SumPrefixStep(xs, n);
    }
  }

  /** The twelve history points add up to the spending of the selected year. */
  lemma {:induction false} HistoryCoversYear(txns: seq<Txn>, year: int)
    ensures Sum(Expenses(History(YearTxns(txns, year)))) == Spending(YearTxns(txns, year))
  {
    var ys := YearTxns(txns, year);
    forall i | 0 <= i < |ys| ensures DateOf(ys[i]).Some? {
      assert ys[i] in ys;
    }
    var xs, items := Expenses(History(ys)), MonthItems(ys);
    forall k | 0 <= k < 12 ensures xs[k] == Total(items, k) {
      MonthSpendingIsTotal(ys, k);
    }
    PrefixIsRangeTotal(xs, items, 12);
    MonthsPartition(ys);
    assert xs[..12] == xs;
  }
}

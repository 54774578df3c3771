/** Calendar dates as the services write them, `YYYY-MM-DD` strings, and the
    month keys `YYYY-MM-01` that name a month's summary row. */
module Dates {
  import opened Text

  /** `/^\d{4}-\d{2}-\d{2}$/`. */
  predicate IsDateShaped(s: string)
  {
    |s| == 10 && AllDigits(s[..4]) && s[4] == '-' && AllDigits(s[5..7]) && s[7] == '-'
    && AllDigits(s[8..])
  }

  /** `/^\d{4}-\d{2}-01$/`, the month check of the income and summary services. */
  predicate IsMonthKey(s: string)
  {
    IsDateShaped(s) && s[8] == '0' && s[9] == '1'
  }

  /** `/^\d{4}-(0[1-9]|1[0-2])-01$/`, the month check of `getExpensesByMonth`. */
  predicate IsStrictMonthKey(s: string)
  {
    IsMonthKey(s) && ((s[5] == '0' && '1' <= s[6] <= '9') || (s[5] == '1' && '0' <= s[6] <= '2'))
  }

  function Year(s: string): nat requires IsDateShaped(s) { DigitsValue(s[..4]) }
  function Month(s: string): nat requires IsDateShaped(s) { DigitsValue(s[5..7]) }
  function Day(s: string): nat requires IsDateShaped(s) { DigitsValue(s[8..]) }

  /** The position of a date on the calendar: the store compares date columns
      chronologically, that is, by this number. */
  function DateKey(s: string): int
    requires IsDateShaped(s)
  {
    Year(s) * 10000 + Month(s) * 100 + Day(s)
  }

  lemma {:induction false} MulMono(x: int, y: int, p: int)
    requires x <= y && p >= 0
    ensures x * p <= y * p
  {
  }

  /** Comparing numbers written with a leading digit `x` (resp. `y`) followed
      by a tail below `p`. */
  lemma {:induction false} LeadingDigitOrder(x: nat, y: nat, t: nat, u: nat, p: nat)
    requires t < p && u < p
    ensures x * p + t <= y * p + u <==> x < y || (x == y && t <= u)
  {
    if x < y {
      MulMono(x + 1, y, p);
      assert (x + 1) * p == x * p + p;
    } else if y < x {
      MulMono(y + 1, x, p);
      assert (y + 1) * p == y * p + p;
    }
  }

  lemma {:induction false} TwoDigitsValue(s: string)
    requires |s| == 2 && AllDigits(s)
    ensures DigitsValue(s) == DigitValue(s[0]) * 10 + DigitValue(s[1])
  {
    var h := s[..|s| - 1];
    assert h == [s[0]] && h[..|h| - 1] == [];
    assert DigitsValue(h) == DigitValue(s[0]);
  }

  /** On digit strings of one length, the string order is the numeric order. */
  lemma {:induction false} LexLeDigits(a: string, b: string)
    requires |a| == |b| && AllDigits(a) && AllDigits(b)
    ensures LexLe(a, b) <==> DigitsValue(a) <= DigitsValue(b)
  {
    if a != [] {
      var a', b' := a[1..], b[1..];
      assert a == [a[0]] + a' && b == [b[0]] + b';
      DigitsValueConcat([a[0]], a');
      DigitsValueConcat([b[0]], b');
      assert [a[0]][..0] == [] && [b[0]][..0] == [];
      DigitsValueBound(a');
      DigitsValueBound(b');
      LexLeDigits(a', b');
      LeadingDigitOrder(DigitValue(a[0]), DigitValue(b[0]), DigitsValue(a'), DigitsValue(b'), Pow10(|a'|));
    }
  }

  lemma {:induction false} LexLeAntisymmetric(a: string, b: string)
    requires LexLe(a, b) && LexLe(b, a)
    ensures a == b
  {
    if a != [] && b != [] {
      LexLeAntisymmetric(a[1..], b[1..]);
      assert a == [a[0]] + a[1..] && b == [b[0]] + b[1..];
    }
  }

  lemma {:induction false} DigitsInjective(a: string, b: string)
    requires |a| == |b| && AllDigits(a) && AllDigits(b) && DigitsValue(a) == DigitsValue(b)
    ensures a == b
  {
    LexLeDigits(a, b);
    LexLeDigits(b, a);
    LexLeAntisymmetric(a, b);
  }

  /** Comparing two strings that start with pieces of one length. */
  lemma {:induction false} LexLeConcat(x: string, y: string, u: string, v: string)
    requires |x| == |u|
    ensures LexLe(x + y, u + v) <==> (x != u && LexLe(x, u)) || (x == u && LexLe(y, v))
  {
    if x == [] {
      assert x + y == y && u + v == v;
    } else {
      assert (x + y)[0] == x[0] && (u + v)[0] == u[0];
      assert (x + y)[1..] == x[1..] + y && (u + v)[1..] == u[1..] + v;
      LexLeConcat(x[1..], y, u[1..], v);
      assert x == [x[0]] + x[1..] && u == [u[0]] + u[1..];
    }
  }

  /** Date strings compare as strings exactly as they compare on the calendar. */
  lemma {:induction false} DateStringParts(a: string)
    requires IsDateShaped(a)
    ensures a == a[..4] + a[4..] && a[4..] == [a[4]] + a[5..]
    ensures a[5..] == a[5..7] + a[7..] && a[7..] == [a[7]] + a[8..]
  {
  }

  lemma {:induction false} SeparatorOrder(c: char, x: string, y: string)
    ensures LexLe([c] + x, [c] + y) <==> LexLe(x, y)
  {
    assert ([c] + x)[1..] == x && ([c] + y)[1..] == y;
  }

  lemma {:induction false} DateStringOrder(a: string, b: string)
    requires IsDateShaped(a) && IsDateShaped(b)
    ensures LexLe(a, b) <==> DateKey(a) <= DateKey(b)
  {
    DateStringParts(a);
    DateStringParts(b);
    LexLeConcat(a[..4], a[4..], b[..4], b[4..]);
    SeparatorOrder('-', a[5..], b[5..]);
    LexLeConcat(a[5..7], a[7..], b[5..7], b[7..]);
    SeparatorOrder('-', a[8..], b[8..]);
    LexLeDigits(a[..4], b[..4]);
    LexLeDigits(a[5..7], b[5..7]);
    LexLeDigits(a[8..], b[8..]);
    if Year(a) == Year(b) { DigitsInjective(a[..4], b[..4]); }
    if Month(a) == Month(b) { DigitsInjective(a[5..7], b[5..7]); }
    assert Pow10(2) == 100;
    DigitsValueBound(a[5..7]);
    DigitsValueBound(b[5..7]);
    DigitsValueBound(a[8..]);
    DigitsValueBound(b[8..]);
  }

  /** A well-formed month key, the loose way, has a month between 01 and 12
      exactly when it passes the strict check. */
  lemma {:induction false} StrictMonthKeyIff(s: string)
    requires IsMonthKey(s)
    ensures IsStrictMonthKey(s) <==> 1 <= Month(s) <= 12
  {
    TwoDigitsValue(s[5..7]);
  }

  /** `getMonthStart`: the month key of a date. */
  function MonthStart(d: string): (m: string)
    requires IsDateShaped(d)
    ensures IsMonthKey(m) && Year(m) == Year(d) && Month(m) == Month(d) && Day(m) == 1
    ensures IsStoreDate(d) ==> IsStoreDate(m)
  {
    var m := d[..4] + "-" + d[5..7] + "-01";
    assert m[..4] == d[..4] && m[5..7] == d[5..7] && m[8..] == "01";
    assert "01"[..1] == "0" && "0"[..0] == [];
    m
  }

  /** Two dates fall in one month exactly when their year and month agree. */
  lemma {:induction false} SameMonthIff(d: string, key: string)
    requires IsDateShaped(d) && IsMonthKey(key)
    ensures MonthStart(d) == key <==> Year(d) == Year(key) && Month(d) == Month(key)
  {
    var m := MonthStart(d);
    if Year(d) == Year(key) && Month(d) == Month(key) {
      DigitsInjective(d[..4], key[..4]);
      DigitsInjective(d[5..7], key[5..7]);
      assert m == key;
    }
  }

  lemma {:induction false} MonthStartIdempotent(d: string)
    requires IsDateShaped(d)
    ensures MonthStart(MonthStart(d)) == MonthStart(d)
  {
    SameMonthIff(MonthStart(d), MonthStart(d));
  }

  /** Calendar position of the first day of the month after month `m` of year
      `y` (December rolls over to January of the next year). */
  function NextMonthStartKey(y: int, m: int): int
  {
    if m == 12 then (y + 1) * 10000 + 100 + 1 else y * 10000 + (m + 1) * 100 + 1
  }

  /** The range `[key, first day of next month)` that `getExpensesByMonth` queries. */
  predicate InMonthRange(d: string, key: string)
    requires IsDateShaped(d) && IsMonthKey(key)
  {
    DateKey(key) <= DateKey(d) < NextMonthStartKey(Year(key), Month(key))
  }

  /** A calendar date lies in a month's query range exactly when its month key
      is that month: the range query and the monthly grouping agree. */
  lemma {:induction false} InMonthRangeIffMonthStart(d: string, key: string)
    requires IsDateShaped(d) && IsStrictMonthKey(key)
    requires 1 <= Month(d) <= 12 && 1 <= Day(d)
    ensures InMonthRange(d, key) <==> MonthStart(d) == key
  {
    StrictMonthKeyIff(key);
    SameMonthIff(d, key);
    DigitsValueBound(d[8..]);
    assert Pow10(2) == 100;
    TwoDigitsValue(key[8..]);
    CalendarWindow(Year(d), Month(d), Day(d), Year(key), Month(key));
  }

  /** The arithmetic of a month window: a day lies between the first day of
      month `mk` of year `yk` and the first day of the next month exactly when
      it is in that year and month. */
  lemma {:induction false} CalendarWindow(y: int, m: int, d: int, yk: int, mk: int)
    requires 1 <= m <= 12 && 1 <= d < 100 && 1 <= mk <= 12
    ensures yk * 10000 + mk * 100 + 1 <= y * 10000 + m * 100 + d < NextMonthStartKey(yk, mk)
            <==> y == yk && m == mk
  {
  }

  /** `${year}-${String(month).padStart(2, "0")}-01`. */
  function FormatMonthKey(year: nat, month: nat): string
  {
    NatToString(year) + "-" + PadTwo(month) + "-01"
  }

  lemma {:induction false} NatToStringLength4(n: nat)
    requires 1000 <= n <= 9999
    ensures |NatToString(n)| == 4
  {
    assert NatToString(n) == NatToString(n / 10) + [DigitChar(n % 10)];
    assert NatToString(n / 10) == NatToString(n / 100) + [DigitChar((n / 10) % 10)];
    assert NatToString(n / 100) == NatToString(n / 1000) + [DigitChar((n / 100) % 10)];
  }

  /** A formatted month key of a four-digit year is a valid key that reads back
      as the same year and month. */
  lemma {:induction false} FormatMonthKeyRoundTrip(year: nat, month: nat)
    requires 1000 <= year <= 9999 && 1 <= month <= 12
    ensures IsStrictMonthKey(FormatMonthKey(year, month))
    ensures Year(FormatMonthKey(year, month)) == year
    ensures Month(FormatMonthKey(year, month)) == month
  {
    var s := FormatMonthKey(year, month);
    NatToStringLength4(year);
    NatToStringRoundTrip(year);
    assert s[..4] == NatToString(year);
    assert s[5..7] == PadTwo(month);
    assert s[8..] == "01";
    assert "01"[..1] == "0" && "0"[..0] == [];
    assert IsMonthKey(s);
    StrictMonthKeyIff(s);
  }

  /** The Gregorian leap-year rule. */
  predicate IsLeapYear(y: int)
  {
    (y % 4 == 0 && y % 100 != 0) || y % 400 == 0
  }

  function DaysInMonth(y: int, m: int): (n: int)
    ensures 28 <= n <= 31
  {
    if m == 2 then (if IsLeapYear(y) then 29 else 28)
    else if m == 4 || m == 6 || m == 9 || m == 11 then 30
    else 31
  }

  /** A `YYYY-MM-DD` string that names a day of the proleptic Gregorian
      calendar, the strings that date parsing accepts in their date-only form. */
  predicate IsCalendarDate(s: string)
  {
    IsDateShaped(s) && 1 <= Month(s) <= 12 && 1 <= Day(s) <= DaysInMonth(Year(s), Month(s))
  }

  /** A `YYYY-MM-DD` string that a Postgres `date` column accepts: a calendar
      date of year 1 or later, since Postgres has no year 0. Comparing a
      `date` column with any other such string, or writing one into it, is
      an error of the store. */
  predicate IsStoreDate(s: string)
  {
    IsCalendarDate(s) && Year(s) >= 1
  }

  /** A loose month key is a date the store accepts exactly when its month is
      a real one (the strict check) and its year is not 0000. */
  lemma {:induction false} MonthKeyStoreDateIff(s: string)
    requires IsMonthKey(s)
    ensures IsStoreDate(s) <==> IsStrictMonthKey(s) && Year(s) >= 1
  {
    StrictMonthKeyIff(s);
    TwoDigitsValue(s[8..]);
  }
}

/** Character and string operations of the JavaScript runtime that the services
    rely on: digits, decimal text of numbers, `String(v)`, `trim`, `toUpperCase`,
    `join` and the code-unit order used to compare strings. */
module Text {
  import opened Values

  predicate IsDigit(c: char) { '0' <= c <= '9' }

  function DigitValue(c: char): nat
    requires IsDigit(c)
  {
    (c as int - '0' as int) as nat
  }

  function DigitChar(d: nat): (c: char)
    requires d < 10
    ensures IsDigit(c) && DigitValue(c) == d
  {
    ('0' as int + d) as char
  }

  predicate AllDigits(s: string) { forall i | 0 <= i < |s| :: IsDigit(s[i]) }

  /** The number a string of decimal digits denotes (most significant first). */
  function DigitsValue(s: string): nat
    requires AllDigits(s)
  {
    if s == [] then 0 else DigitsValue(s[..|s| - 1]) * 10 + DigitValue(s[|s| - 1])
  }

  /** Decimal text of a natural number, as `String(n)` writes it. */
  function NatToString(n: nat): (s: string)
    ensures s != [] && AllDigits(s)
    ensures n > 0 ==> s[0] != '0'
  {
    if n < 10 then [DigitChar(n)] else NatToString(n / 10) + [DigitChar(n % 10)]
  }

  lemma {:induction false} NatToStringRoundTrip(n: nat)
    ensures DigitsValue(NatToString(n)) == n
  {
    if n >= 10 {
      var s := NatToString(n);
      assert s[..|s| - 1] == NatToString(n / 10);
      NatToStringRoundTrip(n / 10);
    }
  }

  /** Decimal text of an integer. */
  function IntToString(i: int): (s: string)
    ensures s != []
  {
    if i < 0 then "-" + NatToString(-i) else NatToString(i)
  }

  /** `String(n).padStart(2, "0")`. */
  function PadTwo(n: nat): (s: string)
    ensures n < 100 ==> |s| == 2 && AllDigits(s) && DigitsValue(s) == n
  {
    if n < 100 then
      var s := [DigitChar(n / 10), DigitChar(n % 10)];
      assert s[..1][..0] == [] && s[..|s| - 1] == s[..1];
      assert DigitsValue(s[..1]) == n / 10;
      s
    else NatToString(n)
  }

  /** Digits of the fractional part `f` of a number, stopping when the
      expansion terminates or after `fuel` digits. */
  function FractionDigits(f: real, fuel: nat): (s: string)
    requires 0.0 <= f < 1.0
    ensures AllDigits(s)
    decreases fuel
  {
    if fuel == 0 || f == 0.0 then ""
    else
      var d := (f * 10.0).Floor;
      [DigitChar(d as nat)] + FractionDigits(f * 10.0 - d as real, fuel - 1)
  }

  /** The characters of a number's text: digits, point, exponent and signs. */
  predicate NumberChar(c: char) { IsDigit(c) || c == '.' || c == 'e' || c == '+' || c == '-' }

  /** The characters of a number's plain decimal text, which has no exponent. */
  predicate PlainChar(c: char) { IsDigit(c) || c == '.' || c == '-' }

  /** The number of zeros `s` starts with. */
  function LeadingZeros(s: string): (n: nat)
    ensures n <= |s|
    ensures forall i | 0 <= i < n :: s[i] == '0'
    ensures n < |s| ==> s[n] != '0'
  {
    if s == [] || s[0] != '0' then 0 else 1 + LeadingZeros(s[1..])
  }

  /** `s` without the zeros it ends with. */
  function TrimTrailingZeros(s: string): (t: string)
    ensures |t| <= |s| && t == s[..|t|]
    ensures forall i | |t| <= i < |s| :: s[i] == '0'
    ensures t != [] ==> t[|t| - 1] != '0'
    ensures s != [] && s[0] != '0' ==> t != []
  {
    if s == [] || s[|s| - 1] != '0' then s else TrimTrailingZeros(s[..|s| - 1])
  }

  /** The exponent form of Number::toString: the first significant digit,
      the others after a point if there are any, then `e`, the sign of the
      exponent and its magnitude. */
  function ExponentText(digits: string, e: int): (s: string)
    requires digits != [] && AllDigits(digits)
    ensures s != [] && s[0] == digits[0] && 'e' in s
    ensures forall i | 0 <= i < |s| :: NumberChar(s[i])
  {
    [digits[0]] + (if |digits| > 1 then "." + digits[1..] else "")
      + "e" + (if e < 0 then "-" else "+") + NatToString(if e < 0 then -e else e)
  }

  /** Decimal text of a number, as `String(x)` writes it: plain decimal for
      10^-6 <= |x| < 10^21 (with at most 20 fractional digits), exponent form
      above (`1e+21`) and below (`1e-7`). */
  function NumberText(x: real): (s: string)
    ensures forall i | 0 <= i < |s| :: NumberChar(s[i])
    ensures (x == 0.0 || Tenth(6) <= Abs(x) < Pow10(21) as real) ==>
      forall i | 0 <= i < |s| :: PlainChar(s[i])
    ensures Abs(x) >= Pow10(21) as real ==> 'e' in s
  {
    var a := Abs(x);
    var body :=
      if a >= Pow10(21) as real then LargeText(a)
      else if 0.0 < a < Tenth(6) then SmallText(a)
      else PlainText(a);
    if x < 0.0 then "-" + body else body
  }

  /** The exponent form of a magnitude of at least 10^21. */
  function LargeText(a: real): (s: string)
    requires a >= 1.0
    ensures 'e' in s && forall i | 0 <= i < |s| :: NumberChar(s[i])
  {
    var n := a.Floor;
    var whole := NatToString(n as nat);
    var digits := whole + FractionDigits(a - n as real, 20);
    assert digits[0] == whole[0];
    ExponentText(TrimTrailingZeros(digits), |whole| - 1)
  }

  /** The exponent form of a magnitude below 10^-6. One whose first
      significant digit lies beyond the 400th decimal place is below the
      smallest double and reads as 0. */
  function SmallText(a: real): (s: string)
    requires 0.0 <= a < 1.0
    ensures forall i | 0 <= i < |s| :: NumberChar(s[i])
  {
    FractionExponentText(FractionDigits(a, 400))
  }

  /** The exponent form of a number whose fractional digits are `f` and
      whose integer part is zero; "0" when `f` has no significant digit. */
  function FractionExponentText(f: string): (s: string)
    requires AllDigits(f)
    ensures forall i | 0 <= i < |s| :: NumberChar(s[i])
  {
    var z := LeadingZeros(f);
    if z < |f| then ExponentText(f[z..], -(z + 1)) else "0"
  }

  /** The plain decimal form of a magnitude: the integer digits, then a point
      and at most 20 fractional digits when there is a fraction. */
  function PlainText(a: real): (s: string)
    requires a >= 0.0
    ensures forall i | 0 <= i < |s| :: IsDigit(s[i]) || s[i] == '.'
  {
    var n := a.Floor;
    NatToString(n as nat)
      + (if a == n as real then "" else "." + FractionDigits(a - n as real, 20))
  }

  lemma {:induction false} NumberTextOfSmall(a: real)
    requires 0.0 < a < Tenth(6)
    ensures NumberText(a) == SmallText(a)
  {
  }

  lemma {:induction false} NumberTextOfPlain(x: real)
    requires x == 0.0 || Tenth(6) <= Abs(x) < Pow10(21) as real
    ensures NumberText(x) == (if x < 0.0 then "-" else "") + PlainText(Abs(x))
  {
  }

  lemma {:induction false} NumberTextOfLarge(a: real)
    requires a >= Pow10(21) as real
    ensures NumberText(a) == LargeText(a)
  {
  }

  /** `k` zero digits. */
  function Zeros(k: nat): (s: string)
    ensures |s| == k && forall i | 0 <= i < k :: s[i] == '0'
  {
    if k == 0 then "" else Zeros(k - 1) + "0"
  }

  /** 10^k. */
  function Pow10(k: nat): (p: nat)
    ensures p >= 1
  {
    if k == 0 then 1 else 10 * Pow10(k - 1)
  }

  lemma {:induction false} DigitsValueConcat(x: string, y: string)
    requires AllDigits(x) && AllDigits(y)
    ensures AllDigits(x + y)
    ensures DigitsValue(x + y) == DigitsValue(x) * Pow10(|y|) + DigitsValue(y)
  {
    assert AllDigits(x + y) by {
      forall i | 0 <= i < |x + y| ensures IsDigit((x + y)[i]) {
        if i >= |x| { assert (x + y)[i] == y[i - |x|]; }
      }
    }
    if y == [] {
      assert x + y == x;
    } else {
      var y' := y[..|y| - 1];
      var d := DigitValue(y[|y| - 1]);
      assert (x + y)[..|x + y| - 1] == x + y';
      assert (x + y)[|x + y| - 1] == y[|y| - 1];
      DigitsValueConcat(x, y');
      assert DigitsValue(x + y) == DigitsValue(x + y') * 10 + d;
      assert DigitsValue(y) == DigitsValue(y') * 10 + d;
      assert Pow10(|y|) == Pow10(|y'|) * 10;
      ShiftDigit(DigitsValue(x), Pow10(|y'|), DigitsValue(y'), d);
    }
  }

  lemma {:induction false} ShiftDigit(a: int, p: int, b: int, d: int)
    ensures (a * p + b) * 10 + d == a * (p * 10) + (b * 10 + d)
  {
  }

  lemma {:induction false} DigitsValueBound(s: string)
    requires AllDigits(s)
    ensures DigitsValue(s) < Pow10(|s|)
  {
    if s != [] {
      DigitsValueBound(s[..|s| - 1]);
    }
  }

  /** A real with no fractional part. */
  predicate IsWhole(y: real) { y.Floor as real == y }

  /** `y` times 10^k, one factor of ten at a time. */
  function Scaled(y: real, k: nat): real
  {
    if k == 0 then y else Scaled(y, k - 1) * 10.0
  }

  /** The digits of a fraction whose expansion ends by the `k`-th place, with
      `k` within the fuel, are all of its digits: read as a whole number they
      are the fraction scaled by 10 to their count. */
  lemma {:induction false} FractionDigitsValue(f: real, fuel: nat, k: nat)
    requires 0.0 <= f < 1.0 && k <= fuel && IsWhole(Scaled(f, k))
    ensures |FractionDigits(f, fuel)| <= k
    ensures DigitsValue(FractionDigits(f, fuel)) as real == Scaled(f, |FractionDigits(f, fuel)|)
    decreases fuel
  {
    if k == 0 {
      assert f.Floor == 0;
    } else if f != 0.0 {
      var d := (f * 10.0).Floor;
      FloorBounds(f * 10.0);
      var g := f * 10.0 - d as real;
      ScaledSub(f * 10.0, d as real, k - 1);
      ScaledTen(f, k - 1);
      ScaledInt(d, k - 1);
      WholeMinusInt(Scaled(f, k), d * Pow10(k - 1));
      FractionDigitsValue(g, fuel - 1, k - 1);
      var rest := FractionDigits(g, fuel - 1);
      assert FractionDigits(f, fuel) == [DigitChar(d as nat)] + rest;
      DigitConsValue(f, d as nat, rest);
    }
  }

  /** A leading digit `d` before the digits of `10 f - d` gives the digits of `f`. */
  lemma {:induction false} DigitConsValue(f: real, d: nat, rest: string)
    requires d < 10 && AllDigits(rest)
    requires DigitsValue(rest) as real == Scaled(f * 10.0 - d as real, |rest|)
    ensures DigitsValue([DigitChar(d)] + rest) as real == Scaled(f, |rest| + 1)
  {
    var c := [DigitChar(d)];
    assert DigitsValue(c) == d by {
      assert c[..0] == [];
    }
    DigitsValueConcat(c, rest);
    ScaledSub(f * 10.0, d as real, |rest|);
    ScaledTen(f, |rest|);
    ScaledInt(d, |rest|);
  }

  lemma {:induction false} ScaledSub(a: real, b: real, k: nat)
    ensures Scaled(a - b, k) == Scaled(a, k) - Scaled(b, k)
  {
    if k > 0 {
      ScaledSub(a, b, k - 1);
    }
  }

  lemma {:induction false} ScaledTen(y: real, k: nat)
    ensures Scaled(y * 10.0, k) == Scaled(y, k + 1)
  {
    if k > 0 {
      ScaledTen(y, k - 1);
    }
  }

  lemma {:induction false} ScaledInt(d: int, k: nat)
    ensures Scaled(d as real, k) == (d * Pow10(k)) as real
  {
    if k > 0 {
      ScaledInt(d, k - 1);
      ShiftDigit(d, Pow10(k - 1), 0, 0);
    }
  }

  /** `Scaled` is multiplication by 10^k. */
  lemma {:induction false} ScaledIsProduct(y: real, k: nat)
    ensures Scaled(y, k) == y * Pow10(k) as real
  {
    if k > 0 {
      ScaledIsProduct(y, k - 1);
      MulTen(y, Pow10(k - 1) as real);
    }
  }

  lemma {:induction false} MulTen(y: real, p: real)
    ensures y * p * 10.0 == y * (10.0 * p)
  {
  }

  lemma {:induction false} FloorBounds(y: real)
    ensures y.Floor as real <= y < y.Floor as real + 1.0
  {
  }

  lemma {:induction false} WholeMinusInt(y: real, m: int)
    requires IsWhole(y)
    ensures IsWhole(y - m as real)
  {
    var j := y.Floor - m;
    assert y - m as real == j as real;
    assert (j as real).Floor == j;
  }

  /** 10^-k. */
  function Tenth(k: nat): (t: real)
    ensures 0.0 < t <= 1.0
  {
    if k == 0 then 1.0 else Tenth(k - 1) / 10.0
  }

  lemma {:induction false} Pow10Grows(j: nat, k: nat)
    requires j <= k
    ensures Pow10(j) <= Pow10(k)
  {
    if j < k {
      Pow10Grows(j, k - 1);
    }
  }

  lemma {:induction false} TenthShrinks(j: nat, k: nat)
    requires j <= k
    ensures Tenth(k) <= Tenth(j)
  {
    if j < k {
      TenthShrinks(j, k - 1);
    }
  }

  /** 10^k is written as a one and `k` zeros. */
  lemma {:induction false} Pow10Text(k: nat)
    ensures NatToString(Pow10(k)) == "1" + Zeros(k)
  {
    if k > 0 {
      Pow10Text(k - 1);
      assert Pow10(k) / 10 == Pow10(k - 1) && Pow10(k) % 10 == 0;
    }
  }

  /** The expansion of 10^-k is `k - 1` zeros and a one. */
  lemma {:induction false} TenthDigits(k: nat, fuel: nat)
    requires 1 <= k <= fuel
    ensures FractionDigits(Tenth(k), fuel) == Zeros(k - 1) + "1"
  {
    if k == 1 {
      assert Tenth(1) * 10.0 == 1.0;
      assert FractionDigits(0.0, fuel - 1) == "";
    } else {
      assert Tenth(k) * 10.0 == Tenth(k - 1);
      TenthShrinks(1, k - 1);
      assert (Tenth(k) * 10.0).Floor == 0;
      TenthDigits(k - 1, fuel - 1);
      assert Zeros(k - 1) == "0" + Zeros(k - 2) by {
        ZerosSplit(k - 2);
      }
    }
  }

  lemma {:induction false} ZerosSplit(k: nat)
    ensures Zeros(k + 1) == "0" + Zeros(k)
  {
    if k > 0 {
      ZerosSplit(k - 1);
    }
  }

  lemma {:induction false} LeadingZerosOfZeros(k: nat)
    ensures LeadingZeros(Zeros(k) + "1") == k
  {
    if k > 0 {
      ZerosSplit(k - 1);
      LeadingZerosOfZeros(k - 1);
      assert (Zeros(k) + "1")[1..] == Zeros(k - 1) + "1";
    }
  }

  lemma {:induction false} TrimOneAndZeros(k: nat)
    ensures TrimTrailingZeros("1" + Zeros(k)) == "1"
  {
    if k > 0 {
      TrimOneAndZeros(k - 1);
      assert ("1" + Zeros(k))[..k] == "1" + Zeros(k - 1);
    }
  }

  /** Small powers of ten take the exponent form: 10^-7 reads "1e-7", where
      a plain decimal would be "0.0000001". */
  lemma {:induction false} NumberTextSmallPower(k: nat)
    requires 7 <= k <= 400
    ensures NumberText(Tenth(k)) == "1e-" + NatToString(k)
  {
    TenthShrinks(7, k);
    TenthDigits(k, 400);
    ExponentOfZerosAndOne(k);
    NumberTextOfSmall(Tenth(k));
  }

  /** The exponent form of the fractional digits `k - 1` zeros and a one. */
  lemma {:induction false} ExponentOfZerosAndOne(k: nat)
    requires k >= 1
    ensures FractionExponentText(Zeros(k - 1) + "1") == "1e-" + NatToString(k)
  {
    var f := Zeros(k - 1) + "1";
    LeadingZerosOfZeros(k - 1);
    assert f[k - 1..] == "1";
  }

  /** Large powers of ten take the exponent form: 10^21 reads "1e+21". */
  lemma {:induction false} NumberTextLargePower(k: nat)
    requires k >= 21
    ensures NumberText(Pow10(k) as real) == "1e+" + NatToString(k)
  {
    Pow10Grows(21, k);
    Pow10Text(k);
    LargeTextOfOneAndZeros(Pow10(k), k);
    NumberTextOfLarge(Pow10(k) as real);
  }

  /** The exponent form of a number written as a one and `k` zeros. */
  lemma {:induction false} LargeTextOfOneAndZeros(n: nat, k: nat)
    requires NatToString(n) == "1" + Zeros(k)
    ensures LargeText(n as real) == "1e+" + NatToString(k)
  {
    var a := n as real;
    assert n >= 1 by {
      assert NatToString(0) == "0";
    }
    assert a.Floor == n;
    assert FractionDigits(a - n as real, 20) == "";
    assert NatToString(n) + "" == "1" + Zeros(k);
    TrimOneAndZeros(k);
  }

  /** The magnitude of a number. */
  function Abs(x: real): (a: real)
    ensures a >= 0.0 && (a == x || a == -x)
  {
    if x < 0.0 then -x else x
  }

  /** `String(v)` for the values a JSON record can hold. */
  function JsString(v: Value): string
    decreases v
  {
    match v
    case Undefined => "undefined"
    case Null => "null"
    case Bool(b) => if b then "true" else "false"
    case Num(x) => NumberText(x)
    case Str(s) => s
    case Arr(items) => ElementsText(items, 0)
    case Obj(_) => "[object Object]"
  }

  /** `items.slice(i).join(",")`, where `join` writes null and undefined as "". */
  function ElementsText(items: seq<Value>, i: nat): string
    requires i <= |items|
    decreases Arr(items), |items| - i
  {
    if i == |items| then ""
    else
      var e := if items[i].Null? || items[i].Undefined? then "" else JsString(items[i]);
      if i == |items| - 1 then e else e + "," + ElementsText(items, i + 1)
  }

  /** The white space and line terminators that `String.prototype.trim` removes. */
  predicate IsJsWhitespace(c: char)
  {
    c == '\t' || c == '\n' || c == '\U{000B}' || c == '\U{000C}' || c == '\r' || c == ' '
    || c == '\U{00A0}' || c == '\U{1680}' || ('\U{2000}' <= c <= '\U{200A}')
    || c == '\U{2028}' || c == '\U{2029}' || c == '\U{202F}' || c == '\U{205F}'
    || c == '\U{3000}' || c == '\U{FEFF}'
  }

  /** `s.trim() === ""`: every character is white space. */
  predicate IsBlank(s: string)
  {
    forall i | 0 <= i < |s| :: IsJsWhitespace(s[i])
  }

  /** `toUpperCase` on one character, for every character whose upper case is
      a single ASCII letter: a-z, dotless i and long s. Every other character
      is left alone here. Its real upper case is either outside ASCII or a
      pair of ASCII letters such as "SS" (for sharp s) or "FI" (for the fi
      ligature), which occurs in none of the codes compared with after
      upper-casing, so those comparisons are still decided exactly. */
  function ToUpperChar(c: char): char
  {
    if 'a' <= c <= 'z' then (c as int - 32) as char
    else if c == '\U{0131}' then 'I'
    else if c == '\U{017F}' then 'S'
    else c
  }

  function ToUpper(s: string): (u: string)
    ensures |u| == |s| && forall i | 0 <= i < |s| :: u[i] == ToUpperChar(s[i])
  {
    if s == [] then [] else [ToUpperChar(s[0])] + ToUpper(s[1..])
  }

  /** `parts.join(sep)`. */
  function Join(parts: seq<string>, sep: string): string
  {
    if |parts| == 0 then ""
    else if |parts| == 1 then parts[0]
    else parts[0] + sep + Join(parts[1..], sep)
  }

  /** String comparison `a <= b` by code units. */
  predicate LexLe(a: string, b: string)
  {
    a == [] || (b != [] && (a[0] < b[0] || (a[0] == b[0] && LexLe(a[1..], b[1..]))))
  }
}

/** The numeric roundings the services apply: `+x.toFixed(2)` and
    `Math.round` in JavaScript, and the round-half-even of Python's `{:.1f}`. */
module Rounding {
  import opened Text

  /** 10^21: from this magnitude on, `toFixed` writes the number unchanged. */
  const FixedLimit: real := 1000000000000000000000.0

  /** `+x.toFixed(2)`: the multiple of 1/100 nearest to `x`, halves rounded
      away from zero (toFixed works on the magnitude and takes the larger of
      two equally near candidates); numbers of magnitude 10^21 or more are
      returned as they are. */
  function Round2(x: real): (r: real)
    ensures -1.0 / 200.0 <= r - x <= 1.0 / 200.0
    ensures (x >= 0.0 ==> r >= 0.0) && (x <= 0.0 ==> r <= 0.0)
  {
    if x >= FixedLimit || x <= -FixedLimit then x
    else if x >= 0.0 then ((x * 100.0 + 0.5).Floor as real) / 100.0
    else -((((-x) * 100.0 + 0.5).Floor as real) / 100.0)
  }

  lemma {:induction false} FloorOfHalfAbove(n: int)
    ensures (n as real + 0.5).Floor == n
  {
  }

  /** A value that already has two decimals is left alone by the rounding. */
  lemma {:induction false} Round2Idempotent(x: real)
    ensures Round2(Round2(x)) == Round2(x)
  {
    if -FixedLimit < x < FixedLimit {
      var r := Round2(x);
      if x >= 0.0 {
        var n := (x * 100.0 + 0.5).Floor;
        assert r * 100.0 == n as real;
        FloorOfHalfAbove(n);
        if r >= FixedLimit {
          assert Round2(r) == r;
        } else {
          assert Round2(r) == ((r * 100.0 + 0.5).Floor as real) / 100.0;
        }
      } else {
        var n := ((-x) * 100.0 + 0.5).Floor;
        assert -r * 100.0 == n as real;
        FloorOfHalfAbove(n);
        if r == 0.0 {
          assert Round2(r) == 0.0;
        } else {
          assert Round2(r) == -((((-r) * 100.0 + 0.5).Floor as real) / 100.0);
        }
      }
    }
  }

  /** `Math.round`: the nearest integer, halves rounded up. */
  function JsRound(x: real): (n: int)
    ensures x - 0.5 < n as real <= x + 0.5
  {
    (x + 0.5).Floor
  }

  lemma {:induction false} JsRoundMonotone(x: real, y: real)
    requires x <= y
    ensures JsRound(x) <= JsRound(y)
  {
  }

  /** The nearest integer, halves rounded to the even neighbour. */
  function RoundHalfEven(y: real): (n: int)
    ensures y - 0.5 <= n as real <= y + 0.5
    ensures (n as real - y == 0.5 || y - n as real == 0.5) ==> n % 2 == 0
  {
    var f := y.Floor;
    var d := y - f as real;
    if d < 0.5 then f
    else if d > 0.5 then f + 1
    else if f % 2 == 0 then f
    else f + 1
  }

  /** Python's `f"{x:.1f}"` for a number in exact arithmetic: one decimal,
      rounded half to even. */
  function OneDecimal(x: real): (s: string)
    ensures |s| >= 3 && s[|s| - 2] == '.' && IsDigit(s[|s| - 1])
  {
    var n := RoundHalfEven(if x < 0.0 then -x * 10.0 else x * 10.0);
    var m := n as nat;
    (if x < 0.0 then "-" else "") + NatToString(m / 10) + "." + [DigitChar(m % 10)]
  }

  /** The text of `OneDecimal(x)` denotes `x` rounded half to even at one
      decimal: a minus sign exactly for negative `x`, then digits and one
      decimal that read back as the rounded ten-fold magnitude. */
  lemma {:induction false} OneDecimalValue(x: real)
    ensures var s := OneDecimal(x);
      var start := if x < 0.0 then 1 else 0;
      && (s[0] == '-' <==> x < 0.0)
      && start < |s| - 2
      && AllDigits(s[start..|s| - 2])
      && DigitsValue(s[start..|s| - 2]) * 10 + DigitValue(s[|s| - 1]) == RoundHalfEven(Abs(x) * 10.0)
  {
    var m := RoundHalfEven(Abs(x) * 10.0) as nat;
    var whole := NatToString(m / 10);
    var s := OneDecimal(x);
    var start := if x < 0.0 then 1 else 0;
    assert s == (if x < 0.0 then "-" else "") + whole + "." + [DigitChar(m % 10)];
    assert s[start..|s| - 2] == whole;
    NatToStringRoundTrip(m / 10);
  }

  /** 10^n as a real. */
  function Scale(n: nat): (p: real)
    ensures p >= 1.0
  {
    if n == 0 then 1.0 else 10.0 * Scale(n - 1)
  }

  lemma {:induction false} DivideBounds(a: real, p: real)
    requires -0.5 <= a <= 0.5 && p >= 1.0
    ensures -0.5 / p <= a / p <= 0.5 / p
  {
    assert a / p * p == a;
    assert 0.5 / p * p == 0.5;
  }

  /** Python's `round(x, n)` in exact arithmetic: the nearest multiple of
      10^-n, halves to the even multiple. */
  function RoundTo(x: real, n: nat): (r: real)
    ensures -0.5 / Scale(n) <= r - x <= 0.5 / Scale(n)
  {
    var p := Scale(n);
    var k := RoundHalfEven(x * p);
    assert (k as real) / p - x == (k as real - x * p) / p;
    DivideBounds(k as real - x * p, p);
    (k as real) / p
  }
}

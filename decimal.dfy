/**
 * Exact decimal arithmetic standing in for Python floats: the value of a run
 * of decimal digits, and Python's `round` (ties to even) on exact reals.
 */
module Decimal {
  import opened Strings

  /** `round(x)` / `round(x, 0)`: nearest integer, ties to the even one. */
  function RoundHalfEven(x: real): (n: int)
    ensures -1.0 / 2.0 <= x - n as real <= 1.0 / 2.0
    ensures x - n as real == 1.0 / 2.0 || x - n as real == -1.0 / 2.0 ==> n % 2 == 0
  {
    var f := x.Floor;
    var d := x - f as real;
    if d < 1.0 / 2.0 then f
    else if d > 1.0 / 2.0 then f + 1
    else if f % 2 == 0 then f else f + 1
  }

  /** `round(x, 2)`: the nearest multiple of 0.01, ties to an even number of hundredths. */
  function Round2(x: real): real {
    RoundHalfEven(x * 100.0) as real / 100.0
  }

  lemma RoundHalfEvenOfInt(n: int)
    ensures RoundHalfEven(n as real) == n
  {
  }

  /** A rounded amount is within half a hundredth of the exact one. */
  lemma Round2Error(x: real)
    ensures -1.0 / 200.0 <= Round2(x) - x <= 1.0 / 200.0
  {
    var n := RoundHalfEven(x * 100.0);
    assert Round2(x) - x == (n as real - x * 100.0) / 100.0;
  }

  /** Rounding to hundredths gives zero exactly for amounts of at most half a hundredth. */
  lemma Round2ZeroIff(x: real)
    ensures Round2(x) == 0.0 <==> -1.0 / 200.0 <= x <= 1.0 / 200.0
  {
    var n := RoundHalfEven(x * 100.0);
    if -1.0 / 200.0 <= x <= 1.0 / 200.0 {
      assert -1.0 / 2.0 <= x * 100.0 <= 1.0 / 2.0;
    } else {
      Round2Error(x);
    }
  }

  /** An amount that is already a whole number of hundredths is left unchanged. */
  lemma Round2Exact(n: int)
    ensures Round2(n as real / 100.0) == n as real / 100.0
  {
    assert n as real / 100.0 * 100.0 == n as real;
    RoundHalfEvenOfInt(n);
  }

  lemma Round2Idempotent(x: real)
    ensures Round2(Round2(x)) == Round2(x)
  {
    Round2Exact(RoundHalfEven(x * 100.0));
  }

  function DigitValue(c: char): (d: nat)
    requires IsDigit(c)
    ensures d < 10
  {
    c as int - '0' as int
  }

  /** Value of a run of decimal digits read as an integer ("0123" is 123). */
  function DigitsValue(ds: string): nat
    requires AllDigits(ds)
  {
    if ds == [] then 0 else DigitsValue(ds[..|ds| - 1]) * 10 + DigitValue(ds[|ds| - 1])
  }

  /** Value of the digits after a decimal point ("25" is 0.25). */
  function FracValue(ds: string): (r: real)
    requires AllDigits(ds)
    ensures 0.0 <= r <= 1.0
  {
    if ds == [] then 0.0 else (DigitValue(ds[0]) as real + FracValue(ds[1..])) / 10.0
  }

  function DigitChar(d: nat): (c: char)
    requires d < 10
    ensures IsDigit(c) && DigitValue(c) == d
  {
    ('0' as int + d) as char
  }

  /** Decimal rendering of a natural number, as `str(n)` writes it. */
  function NatToDigits(n: nat): (ds: string)
    ensures |ds| > 0 && AllDigits(ds)
  {
    if n < 10 then [DigitChar(n)] else NatToDigits(n / 10) + [DigitChar(n % 10)]
  }

  /** Reading back a rendered number gives the number. */
  lemma {:induction false} DigitsValueOfNatToDigits(n: nat)
    ensures DigitsValue(NatToDigits(n)) == n
  {
    var ds := NatToDigits(n);
    if n >= 10 {
      DigitsValueOfNatToDigits(n / 10);
      assert ds[..|ds| - 1] == NatToDigits(n / 10);
    }
  }

  lemma {:induction false} DigitsValueAppend(ds: string, c: char)
    requires AllDigits(ds) && IsDigit(c)
    ensures AllDigits(ds + [c]) && DigitsValue(ds + [c]) == DigitsValue(ds) * 10 + DigitValue(c)
  {
    assert (ds + [c])[..|ds|] == ds;
  }
}

/**
  Decimal text of numbers, in both directions, and Python's `round`.

  `str(n)` for integers, `int(s)` and `float(s)` for the decimal spellings the
  program meets (an optional sign, ASCII digits and at most one point), and
  `round(x)` / `round(x, 2)` with ties to even. Values are exact reals; the
  binary-float behaviour of the originals is not modelled.
 */
module Numbers {
  import opened Wrappers
  import opened Text

  function DigitValue(c: char): nat
    requires IsDigit(c)
  {
    (c as int) - ('0' as int)
  }

  function DigitChar(k: nat): (c: char)
    requires k < 10
    ensures IsDigit(c) && DigitValue(c) == k
  {
    (('0' as int) + k) as char
  }

  /** The value of a string of decimal digits, most significant first. */
  function DigitsValue(d: string): nat
    requires AllDigits(d)
    decreases |d|
  {
    if d == [] then 0 else DigitsValue(d[..|d| - 1]) * 10 + DigitValue(d[|d| - 1])
  }

  function Pow10(n: nat): (r: nat)
    ensures r >= 1
  {
    if n == 0 then 1 else 10 * Pow10(n - 1)
  }

  /** Python's `str(n)` for a non-negative integer: canonical digits that denote `n`. */
  function NatToString(n: nat): (s: string)
    ensures s != [] && AllDigits(s) && DigitsValue(s) == n
    ensures s[0] == '0' ==> n == 0 && |s| == 1
  {
    if n < 10 then [DigitChar(n)]
    else
      var s := NatToString(n / 10) + [DigitChar(n % 10)];
      assert s[..|s| - 1] == NatToString(n / 10);
      s
  }

  /** Python's `str(i)` for an integer. */
  function IntToString(i: int): (s: string)
    ensures s != [] && (s[0] == '-' || IsDigit(s[0])) && IsDigit(s[|s| - 1])
    ensures forall k | 0 < k < |s| :: IsDigit(s[k])
  {
    if i < 0 then "-" + NatToString(-i) else NatToString(i)
  }

  /** An optional leading sign, as `int()` and `float()` accept it. */
  function SplitSign(t: string): (int, string) {
    if t != [] && t[0] == '-' then (-1, t[1..])
    else if t != [] && t[0] == '+' then (1, t[1..])
    else (1, t)
  }

  /** Python's `int(s)` in base 10: surrounding white space, an optional sign, one or more digits. */
  function ParseInt(s: string): Option<int> {
    var (sign, digits) := SplitSign(Strip(s));
    if digits != [] && AllDigits(digits) then Some(sign * DigitsValue(digits)) else None
  }

  /** The value of the digits after a decimal point: `0.d1d2...` as an exact real. */
  function Fraction(frac: string): (r: real)
    requires AllDigits(frac)
    ensures 0.0 <= r < 1.0
    ensures frac != [] ==> r * 10.0 == DigitValue(frac[0]) as real + Fraction(frac[1..])
    decreases |frac|
  {
    if frac == [] then 0.0 else (DigitValue(frac[0]) as real + Fraction(frac[1..])) / 10.0
  }

  /** The value of `digits[.digits]`, `digits.` or `.digits`. */
  function DecimalValue(body: string): Option<real> {
    match IndexOfChar(body, '.')
    case None =>
      if body != [] && AllDigits(body) then Some(DigitsValue(body) as real) else None
    case Some(i) =>
      var whole, frac := body[..i], body[i + 1..];
      if (whole != [] || frac != []) && AllDigits(whole) && AllDigits(frac)
      then Some(DigitsValue(whole) as real + Fraction(frac))
      else None
  }

  /** Python's `float(s)` for plain decimal spellings (no exponent, `inf`, `nan` or `_`). */
  function ParseFloat(s: string): Option<real> {
    var (sign, body) := SplitSign(Strip(s));
    match DecimalValue(body)
    case None => None
    case Some(x) => Some(sign as real * x)
  }

  /** `int(str(i)) == i`. */
  lemma IntRoundTrip(i: int)
    ensures ParseInt(IntToString(i)) == Some(i)
  {
    var s := IntToString(i);
    SignOrDigitIsNotSpace(s[0]);
    SignOrDigitIsNotSpace(s[|s| - 1]);
    StripNoSpace(s);
    if i < 0 {
      assert s[1..] == NatToString(-i);
      assert SplitSign(s) == (-1, NatToString(-i));
    } else {
      assert SplitSign(s) == (1, NatToString(i));
    }
  }

  lemma SignOrDigitIsNotSpace(c: char)
    requires c == '-' || IsDigit(c)
    ensures !IsSpace(c)
  {
  }

  /** `int(d)` of a string of digits is its value. */
  lemma ParseDigits(d: string)
    requires d != [] && AllDigits(d)
    ensures ParseInt(d) == Some(DigitsValue(d))
  {
    StripNoSpace(d);
  }

  lemma TwoDigits(d: string)
    requires |d| == 2 && AllDigits(d)
    ensures DigitsValue(d) == 10 * DigitValue(d[0]) + DigitValue(d[1])
  {
    var p := d[..1];
    assert p[..0] == [] && p[0] == d[0];
    assert DigitsValue(p) == DigitValue(d[0]);
    assert d[..|d| - 1] == p;
  }

  /** `float("W.F")` for digit strings `W` (non-empty) and `F`. */
  lemma DecimalRoundTrip(whole: string, frac: string)
    requires whole != [] && AllDigits(whole) && AllDigits(frac)
    ensures ParseFloat(whole + "." + frac)
         == Some(DigitsValue(whole) as real + Fraction(frac))
  {
    var s := whole + "." + frac;
    assert s[0] == whole[0] && IsDigit(s[0]);
    assert IsDigit(s[|s| - 1]) || s[|s| - 1] == '.';
    StripNoSpace(s);
    assert SplitSign(s) == (1, s);
    PointSplits(whole, frac);
  }

  lemma PointSplits(whole: string, frac: string)
    requires whole != [] && AllDigits(whole) && AllDigits(frac)
    ensures DecimalValue(whole + "." + frac)
         == Some(DigitsValue(whole) as real + Fraction(frac))
  {
    var s := whole + "." + frac;
    FirstPointAfter(whole, frac);
    assert s[..|whole|] == whole && s[|whole| + 1..] == frac;
    DecimalValueAt(s, |whole|);
  }

  /** A body whose first point is at `i`, with digits before and after it, reads as those two parts. */
  lemma DecimalValueAt(body: string, i: nat)
    requires i < |body| && IndexOfChar(body, '.') == Some(i)
    requires body[..i] != [] && AllDigits(body[..i]) && AllDigits(body[i + 1..])
    ensures DecimalValue(body) == Some(DigitsValue(body[..i]) as real + Fraction(body[i + 1..]))
  {
  }

  /** In `W.F` with digits `W`, the first point is the one after `W`. */
  lemma FirstPointAfter(whole: string, frac: string)
    requires AllDigits(whole)
    ensures IndexOfChar(whole + "." + frac, '.') == Some(|whole|)
  {
    var s := whole + "." + frac;
    assert s[..|whole|] == whole && s[|whole|] == '.';
    assert '.' !in whole by {
      forall k | 0 <= k < |whole| ensures whole[k] != '.' {
        assert IsDigit(whole[k]);
      }
    }
    IndexOfCharIs(s, '.', |whole|);
  }

  /** Python's `round(x)`: the nearest integer, ties to the even one. */
  function RoundHalfEven(x: real): (r: int)
    ensures x - 0.5 <= r as real <= x + 0.5
    ensures (r as real - x == 0.5 || x - r as real == 0.5) ==> r % 2 == 0
  {
    var f := x.Floor;
    var d := x - f as real;
    if d < 0.5 then f
    else if d > 0.5 then f + 1
    else if f % 2 == 0 then f
    else f + 1
  }

  /** The two properties of `RoundHalfEven` determine it: no other integer has them. */
  lemma RoundHalfEvenUnique(x: real, n: int)
    requires x - 0.5 <= n as real <= x + 0.5
    requires (n as real - x == 0.5 || x - n as real == 0.5) ==> n % 2 == 0
    ensures n == RoundHalfEven(x)
  {
  }

  /** Python's `round(x, 2)` on an exact real: the nearest whole number of hundredths, ties to the even one. */
  function Round2(x: real): (r: real)
    ensures (r * 100.0).Floor as real == r * 100.0
    ensures x - 0.005 <= r <= x + 0.005
    ensures (r - x == 0.005 || x - r == 0.005) ==> (r * 100.0).Floor % 2 == 0
  {
    var n := RoundHalfEven(x * 100.0);
    assert n as real / 100.0 * 100.0 == n as real;
    n as real / 100.0
  }

  /** Those three properties determine `Round2`: no other real has them. */
  lemma Round2Unique(x: real, r: real)
    requires (r * 100.0).Floor as real == r * 100.0
    requires x - 0.005 <= r <= x + 0.005
    requires (r - x == 0.005 || x - r == 0.005) ==> (r * 100.0).Floor % 2 == 0
    ensures r == Round2(x)
  {
    var n := (r * 100.0).Floor;
    RoundHalfEvenUnique(x * 100.0, n);
    assert r == n as real / 100.0;
  }
}

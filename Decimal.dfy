/**
 * Exact fixed-point stand-ins for the floating-point amounts of the source: an amount is
 * a number of hundredths (cents), read from decimal digits and rendered the way Python's
 * `str(float)` renders such a value.
 */
module Decimal {
  import opened Text

  function DigitValue(c: char): (d: nat)
    ensures d < 10
  {
    if IsDigit(c) then c as int - '0' as int else 0
  }

  function DigitChar(d: nat): (c: char)
    requires d < 10
    ensures IsDigit(c) && DigitValue(c) == d
  {
    ('0' as int + d) as char
  }

  function Pow10(n: nat): (r: nat)
    ensures r >= 1
  {
    if n == 0 then 1 else 10 * Pow10(n - 1)
  }

  lemma {:induction false} Pow10Monotone(a: nat, b: nat)
    requires a <= b
    ensures Pow10(a) <= Pow10(b)
    decreases b
  {
    if a < b {
      Pow10Monotone(a, b - 1);
    }
  }

  predicate AllDigits(s: string) {
    forall k :: 0 <= k < |s| ==> IsDigit(s[k])
  }

  /** The value of a string of decimal digits: `int(ds)`. */
  function DigitsValue(ds: string): (r: nat)
    ensures r < Pow10(|ds|)
    decreases |ds|
  {
    if |ds| == 0 then 0 else 10 * DigitsValue(ds[..|ds| - 1]) + DigitValue(ds[|ds| - 1])
  }

  /** The decimal numeral of `n` without leading zeros: `str(n)`. */
  function NatText(n: nat): (r: string)
    ensures |r| > 0 && AllDigits(r) && DigitsValue(r) == n
    ensures |r| > 1 ==> r[0] != '0'
    decreases n
  {
    if n < 10 then [DigitChar(n)]
    else
      var r := NatText(n / 10) + [DigitChar(n % 10)];
      assert r[..|r| - 1] == NatText(n / 10);
      r
  }

  /** The hundredths denoted by the fractional digits after a decimal point:
      "" is 0, "5" is 50, "05" is 5, "57" is 57. */
  function FractionCents(fr: string): (c: nat)
    requires |fr| <= 2
    ensures c < 100
  {
    if |fr| == 0 then 0
    else if |fr| == 1 then 10 * DigitValue(fr[0])
    else 10 * DigitValue(fr[0]) + DigitValue(fr[1])
  }

  /** The shortest fractional digits for `f` hundredths, with at least one digit:
      0 is "0", 50 is "5", 5 is "05". */
  function FractionText(f: nat): (r: string)
    requires f < 100
    ensures 1 <= |r| <= 2 && AllDigits(r) && FractionCents(r) == f
    ensures |r| == 2 ==> r[1] != '0'
  {
    if f == 0 then "0"
    else if f % 10 == 0 then [DigitChar(f / 10)]
    else [DigitChar(f / 10), DigitChar(f % 10)]
  }

  /** Python's `str(value)` for a float holding `cents` hundredths: the integer part,
      a point and at least one fractional digit, with a trailing zero dropped. */
  function FloatText(cents: nat): string {
    NatText(cents / 100) + "." + FractionText(cents % 100)
  }

  /** `str(cents / 100)` is whole digits, a point and one or two digits that read back
      as `cents`. */
  lemma {:induction false} FloatTextParts(cents: nat) returns (w: string, f: string)
    ensures FloatText(cents) == w + "." + f
    ensures |w| > 0 && AllDigits(w) && 1 <= |f| <= 2 && AllDigits(f)
    ensures 100 * DigitsValue(w) + FractionCents(f) == cents
  {
    w, f := NatText(cents / 100), FractionText(cents % 100);
    assert DigitsValue(w) == cents / 100 && FractionCents(f) == cents % 100;
  }
}

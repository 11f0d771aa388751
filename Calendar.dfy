/**
 * Calendar dates of the proleptic Gregorian calendar, as Python's `datetime.date`
 * holds them, and their ISO text `YYYY-MM-DD` (`str(date)`, `strftime("%Y-%m-%d")`).
 */
module Calendar {
  import opened Wrappers
  import opened Text
  import opened Decimal

  datatype Date = Date(year: nat, month: nat, day: nat)

  predicate IsLeap(y: nat) {
    y % 4 == 0 && (y % 100 != 0 || y % 400 == 0)
  }

  function DaysInMonth(y: nat, m: nat): (n: nat)
    requires 1 <= m <= 12
    ensures 28 <= n <= 31
    ensures n == 29 <==> m == 2 && IsLeap(y)
  {
    if m == 2 then (if IsLeap(y) then 29 else 28)
    else if m == 4 || m == 6 || m == 9 || m == 11 then 30
    else 31
  }

  /** The dates `datetime.date` accepts: years 1 to 9999, real months and days. */
  predicate ValidDate(d: Date) {
    1 <= d.year <= 9999 && 1 <= d.month <= 12 && 1 <= d.day <= DaysInMonth(d.year, d.month)
  }

  function Zeros(n: nat): (r: string)
    ensures |r| == n && AllDigits(r)
  {
    if n == 0 then "" else Zeros(n - 1) + "0"
  }

  /** `%0<width>d` of `n`. */
  function Padded(n: nat, width: nat): (r: string)
    ensures AllDigits(r) && DigitsValue(r) == n
    ensures |r| >= width
    ensures 1 <= width && n < Pow10(width) ==> |r| == width
  {
    var t := NatText(n);
    var z := if |t| < width then width - |t| else 0;
    ZerosPrefix(z, t);
    assert 1 <= width && n < Pow10(width) ==> |t| <= width by {
      if 1 <= width && n < Pow10(width) {
        TextShort(n, width);
      }
    }
    Zeros(z) + t
  }

  lemma {:induction false} ZerosValue(z: nat)
    ensures DigitsValue(Zeros(z)) == 0
  {
    if z > 0 {
      var u := Zeros(z);
      assert u[..z - 1] == Zeros(z - 1);
      ZerosValue(z - 1);
      assert DigitsValue(u[..z - 1]) == 0;
      assert DigitValue(u[z - 1]) == 0;
    }
  }

  lemma {:induction false} ZerosPrefix(z: nat, t: string)
    ensures DigitsValue(Zeros(z) + t) == DigitsValue(t)
    decreases |t|
  {
    if |t| == 0 {
      assert Zeros(z) + t == Zeros(z);
      ZerosValue(z);
    } else {
      var u := Zeros(z) + t;
      assert u[..|u| - 1] == Zeros(z) + t[..|t| - 1];
      ZerosPrefix(z, t[..|t| - 1]);
    }
  }

  /** The numeral of a number below 10^width has at most `width` digits. */
  lemma {:induction false} TextShort(n: nat, width: nat)
    requires 1 <= width && n < Pow10(width)
    ensures |NatText(n)| <= width
    decreases n
  {
    if n >= 10 {
      TextShort(n / 10, width - 1);
    }
  }

  /** The text of `str(date)` / `date.strftime("%Y-%m-%d")`. */
  function IsoText(d: Date): string {
    Padded(d.year, 4) + "-" + Padded(d.month, 2) + "-" + Padded(d.day, 2)
  }

  /** Reads `YYYY-MM-DD` back; `None` for anything that is not the text of a valid date. */
  function ParseIso(s: string): (r: Option<Date>)
    ensures r.Some? ==> ValidDate(r.value)
  {
    if |s| == 10 && s[4] == '-' && s[7] == '-'
       && AllDigits(s[..4]) && AllDigits(s[5..7]) && AllDigits(s[8..])
    then
      var d := Date(DigitsValue(s[..4]), DigitsValue(s[5..7]), DigitsValue(s[8..]));
      if ValidDate(d) then Some(d) else None
    else None
  }

  /** The ISO text of a valid date is ten characters long and reads back as that date. */
  lemma {:induction false} IsoRoundTrip(d: Date)
    requires ValidDate(d)
    ensures |IsoText(d)| == 10
    ensures ParseIso(IsoText(d)) == Some(d)
  {
    assert Pow10(4) == 10000 && Pow10(2) == 100;
    var y, m, dd := Padded(d.year, 4), Padded(d.month, 2), Padded(d.day, 2);
    var s := IsoText(d);
    assert s[..4] == y && s[5..7] == m && s[8..] == dd;
  }
}

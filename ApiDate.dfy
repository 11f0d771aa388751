/**
 * API strategy, date extraction (`extract_date` in ocr_parser.py).
 *
 * Three expressions are tried in order; for the first hit of each, eight `strptime`
 * formats are tried in order, and the first that reads the hit gives the date. When
 * every format fails on that hit, the next expression is tried; when none is left,
 * the date is the current date `now`.
 *
 * `strptime` is modelled on the expression it builds from a format: `%d` is
 * `3[01]|[12]\d|0[1-9]|[1-9]| [1-9]`, `%m` is `1[0-2]|0[1-9]|[1-9]`, `%Y` is four
 * digits, `%B` and `%b` are the English month names and their abbreviations in any
 * letter case, a space is `\s+`, and every other character stands for itself. The
 * expression is matched at the start, with backtracking; the match must then cover
 * the whole text, and the fields must form a real date.
 */
module ApiDate {
  import opened Wrappers
  import opened Text
  import opened Decimal
  import opened Search
  import opened Calendar

  // ---------------------------------------------------------------------------
  // The three search expressions
  // ---------------------------------------------------------------------------

  predicate IsSep(c: char) { c == '-' || c == '/' || c == '.' }

  /** `\b(\d{1,2}[-/\.]\d{1,2}[-/\.]\d{2,4})\b` at `i`; the result is where it ends. */
  function DayFirstAt(s: string, i: nat): Option<nat> {
    if !WordStart(s, i) then None
    else match DigitField(s, i, 1, 2)
      case None => None
      case Some(a) =>
        if !(a < |s| && IsSep(s[a])) then None
        else match DigitField(s, a + 1, 1, 2)
          case None => None
          case Some(b) =>
            if !(b < |s| && IsSep(s[b])) then None
            else match DigitField(s, b + 1, 2, 4)
              case None => None
              case Some(c) => if WordEnd(s, c) then Some(c) else None
  }

  /** `\b(\d{4}[-/\.]\d{1,2}[-/\.]\d{1,2})\b` at `i`. */
  function YearFirstAt(s: string, i: nat): Option<nat> {
    if !WordStart(s, i) then None
    else match DigitField(s, i, 4, 4)
      case None => None
      case Some(a) =>
        if !(a < |s| && IsSep(s[a])) then None
        else match DigitField(s, a + 1, 1, 2)
          case None => None
          case Some(b) =>
            if !(b < |s| && IsSep(s[b])) then None
            else match DigitField(s, b + 1, 1, 2)
              case None => None
              case Some(c) => if WordEnd(s, c) then Some(c) else None
  }

  /** `\b(\d{1,2} \w{3,9} \d{2,4})\b` at `i`, with single literal spaces. A space
      follows the word, so its whole run of word characters takes part. */
  function DayWordAt(s: string, i: nat): Option<nat> {
    if !WordStart(s, i) then None
    else match DigitField(s, i, 1, 2)
      case None => None
      case Some(a) =>
        if !(a < |s| && s[a] == ' ') then None
        else
          var w := Run(s, a + 1, IsWordChar);
          var q := a + 1 + w;
          if !(3 <= w <= 9 && q < |s| && s[q] == ' ') then None
          else match DigitField(s, q + 1, 2, 4)
            case None => None
            case Some(c) => if WordEnd(s, c) then Some(c) else None
  }

  const PatternCount: nat := 3

  /** Expression `k` at `i`: group 1, which is the whole hit. */
  function PatternAt(k: nat, s: string, i: nat): (r: Option<string>)
    ensures r.Some? ==> OccursAt(s, r.value, i) && |r.value| > 0
  {
    var e := if k == 0 then DayFirstAt(s, i)
             else if k == 1 then YearFirstAt(s, i)
             else if k == 2 then DayWordAt(s, i)
             else None;
    if e.Some? && i < e.value <= |s| then Some(s[i..e.value]) else None
  }

  /** `re.search(patterns[k], text).group(1)` */
  function SearchPattern(k: nat, s: string): Option<string> {
    FirstMatch(s, 0, (t: string, i: nat) => PatternAt(k, t, i))
  }

  // ---------------------------------------------------------------------------
  // strptime
  // ---------------------------------------------------------------------------

  /** `%d-%m-%Y`-like formats (`yearFirst` false) and `%Y-%m-%d`-like ones with the
      separator `sep`; `%d %B %Y` (`full`) and `%d %b %Y`. */
  datatype Format = Numeric(sep: char, yearFirst: bool) | Named(full: bool)

  const Formats: seq<Format> := [
    Numeric('-', false), Numeric('/', false), Numeric('.', false),
    Numeric('-', true), Numeric('/', true), Numeric('.', true),
    Named(true), Named(false)
  ]

  /** One way a directive can match: how many characters it takes and its value. */
  datatype Field = Field(len: nat, value: nat)

  /** The fields read by a match, and where the match ends. */
  datatype Fields = Fields(day: nat, month: nat, year: nat, end: nat)

  predicate IsNonZeroDigit(c: char) { '1' <= c <= '9' }

  /** The alternatives of `%d` that match at `p`, in the order they are tried. */
  function DayAlts(s: string, p: nat): (r: seq<Field>)
    ensures forall k :: 0 <= k < |r| ==> 1 <= r[k].len <= 2 && p + r[k].len <= |s|
    ensures forall k :: 0 <= k < |r| ==> 1 <= r[k].value <= 31
  {
    var two := if p + 1 < |s| && ((s[p] == '3' && (s[p + 1] == '0' || s[p + 1] == '1'))
                                  || ((s[p] == '1' || s[p] == '2') && IsDigit(s[p + 1]))
                                  || (s[p] == '0' && IsNonZeroDigit(s[p + 1])))
               then [Field(2, 10 * DigitValue(s[p]) + DigitValue(s[p + 1]))] else [];
    var one := if p < |s| && IsNonZeroDigit(s[p]) then [Field(1, DigitValue(s[p]))] else [];
    var spaced := if p + 1 < |s| && s[p] == ' ' && IsNonZeroDigit(s[p + 1])
                  then [Field(2, DigitValue(s[p + 1]))] else [];
    two + one + spaced
  }

  /** The alternatives of `%m` that match at `p`, in the order they are tried. */
  function MonthAlts(s: string, p: nat): (r: seq<Field>)
    ensures forall k :: 0 <= k < |r| ==> 1 <= r[k].len && p + r[k].len <= |s|
    ensures forall k :: 0 <= k < |r| ==> 1 <= r[k].value <= 12
  {
    var two := if p + 1 < |s| && ((s[p] == '1' && '0' <= s[p + 1] <= '2')
                                  || (s[p] == '0' && IsNonZeroDigit(s[p + 1])))
               then [Field(2, 10 * DigitValue(s[p]) + DigitValue(s[p + 1]))] else [];
    var one := if p < |s| && IsNonZeroDigit(s[p]) then [Field(1, DigitValue(s[p]))] else [];
    two + one
  }

  /** `%Y` at `p`: four digits. */
  predicate FourDigits(s: string, p: nat) {
    p + 4 <= |s| && IsDigit(s[p]) && IsDigit(s[p + 1]) && IsDigit(s[p + 2]) && IsDigit(s[p + 3])
  }

  function YearAt(s: string, p: nat): nat
    requires p + 4 <= |s|
  {
    DigitsValue(s[p..p + 4])
  }

  const MonthNames: seq<string> := [
    "january", "february", "march", "april", "may", "june",
    "july", "august", "september", "october", "november", "december"
  ]
  const MonthAbbrevs: seq<string> :=
    ["jan", "feb", "mar", "apr", "may", "jun", "jul", "aug", "sep", "oct", "nov", "dec"]

  /** The lower-case `word` at `p`, ignoring letter case. */
  predicate WordAt(s: string, p: nat, word: string) {
    p + |word| <= |s| && forall k :: 0 <= k < |word| ==> LowerChar(s[p + k]) == word[k]
  }

  /**
   * `%B` (or `%b`) at `p`, from month `k` on: the month matched and its length. No name
   * of either list starts another name of the same list, so at most one name matches
   * at a position and the order in which the alternatives are tried does not matter.
   */
  function MonthNameFrom(s: string, p: nat, names: seq<string>, k: nat): (r: Option<Field>)
    requires k <= |names|
    ensures r.Some? ==> 1 <= r.value.value <= |names| && p + r.value.len <= |s|
    decreases |names| - k
  {
    if k == |names| then None
    else if WordAt(s, p, names[k]) then Some(Field(|names[k]|, k + 1))
    else MonthNameFrom(s, p, names, k + 1)
  }

  /** The rest of `%d<sep>%m<sep>%Y` once the day took `p` characters. */
  function DayMonthYearAfterDay(s: string, sep: char, p: nat, day: nat): Option<Fields> {
    if p < |s| && s[p] == sep then TryMonths(s, sep, p + 1, MonthAlts(s, p + 1), day)
    else None
  }

  function TryMonths(s: string, sep: char, p: nat, ms: seq<Field>, day: nat): Option<Fields>
    decreases |ms|
  {
    if |ms| == 0 then None
    else
      var q := p + ms[0].len;
      if q < |s| && s[q] == sep && FourDigits(s, q + 1) then
        Some(Fields(day, ms[0].value, YearAt(s, q + 1), q + 5))
      else TryMonths(s, sep, p, ms[1..], day)
  }

  /** `%d %B %Y` once the day took `p` characters: `\s+`, the name, `\s+`, the year.
      Neither a name nor the year starts with whitespace, so each `\s+` takes its whole
      run. */
  function NamedAfterDay(s: string, names: seq<string>, p: nat, day: nat): Option<Fields> {
    var n := Run(s, p, IsSpace);
    if n == 0 then None
    else match MonthNameFrom(s, p + n, names, 0)
      case None => None
      case Some(m) =>
        var q := p + n + m.len;
        var n2 := Run(s, q, IsSpace);
        if n2 > 0 && FourDigits(s, q + n2) then Some(Fields(day, m.value, YearAt(s, q + n2), q + n2 + 4))
        else None
  }

  /** The day alternatives `ds` tried in order, each followed by the rest of the format. */
  function TryDays(s: string, f: Format, ds: seq<Field>): Option<Fields>
    requires f.Named? || !f.yearFirst
    decreases |ds|
  {
    if |ds| == 0 then None
    else if AfterDay(s, f, ds[0]).Some? then AfterDay(s, f, ds[0])
    else TryDays(s, f, ds[1..])
  }

  /** The rest of a day-first format once the day `d` matched. */
  function AfterDay(s: string, f: Format, d: Field): Option<Fields>
    requires f.Named? || !f.yearFirst
  {
    if f.Numeric? then DayMonthYearAfterDay(s, f.sep, d.len, d.value)
    else NamedAfterDay(s, if f.full then MonthNames else MonthAbbrevs, d.len, d.value)
  }

  /** `%Y<sep>%m<sep>%d`: nothing follows the day, so its first alternative ends the match. */
  function YearFirstFields(s: string, sep: char): Option<Fields> {
    if FourDigits(s, 0) && 4 < |s| && s[4] == sep then YearMonths(s, sep, MonthAlts(s, 5), YearAt(s, 0))
    else None
  }

  function YearMonths(s: string, sep: char, ms: seq<Field>, year: nat): Option<Fields>
    decreases |ms|
  {
    if |ms| == 0 then None
    else
      var q := 5 + ms[0].len;
      if q < |s| && s[q] == sep && |DayAlts(s, q + 1)| > 0 then
        var d := DayAlts(s, q + 1)[0];
        Some(Fields(d.value, ms[0].value, year, q + 1 + d.len))
      else YearMonths(s, sep, ms[1..], year)
  }

  /** The match of the expression of format `f` at the start of `s`. */
  function FormatMatch(f: Format, s: string): Option<Fields> {
    if f.Numeric? && f.yearFirst then YearFirstFields(s, f.sep)
    else TryDays(s, f, DayAlts(s, 0))
  }

  /** `datetime.strptime(s, f).date()`, `None` for the `ValueError` it raises. */
  function Strptime(f: Format, s: string): (r: Option<Date>)
    ensures r.Some? ==> ValidDate(r.value)
  {
    match FormatMatch(f, s)
    case None => None
    case Some(m) =>
      var d := Date(m.year, m.month, m.day);
      if m.end == |s| && ValidDate(d) then Some(d) else None
  }

  /** The formats from index `k` on, tried in order on `s`. */
  function TryFormats(s: string, k: nat): (r: Option<Date>)
    requires k <= |Formats|
    ensures r.Some? ==> ValidDate(r.value)
    decreases |Formats| - k
  {
    if k == |Formats| then None
    else if Strptime(Formats[k], s).Some? then Strptime(Formats[k], s)
    else TryFormats(s, k + 1)
  }

  /** What expression `k` contributes: the date read from its first hit, if any. */
  function PatternDate(k: nat, text: string): (r: Option<Date>)
    ensures r.Some? ==> ValidDate(r.value)
  {
    match SearchPattern(k, text)
    case None => None
    case Some(hit) => TryFormats(hit, 0)
  }

  /** The expressions from index `k` on, then `now`. */
  function DateFrom(text: string, k: nat, now: Date): Date
    decreases PatternCount - k
  {
    if k >= PatternCount then now
    else if PatternDate(k, text).Some? then PatternDate(k, text).value
    else DateFrom(text, k + 1, now)
  }

  /** What `extract_date` returns (the date part of the `datetime`). */
  function DateOf(text: string, now: Date): Date {
    DateFrom(text, 0, now)
  }

  method ExtractDate(text: string, now: Date) returns (r: Date)
    ensures r == DateOf(text, now)
  {
    for k := 0 to PatternCount
      invariant DateOf(text, now) == DateFrom(text, k, now)
    {
      var hit := SearchPattern(k, text);
      if hit.Some? {
        for j := 0 to |Formats|
          invariant TryFormats(hit.value, 0) == TryFormats(hit.value, j)
        {
          var d := Strptime(Formats[j], hit.value);
          if d.Some? {
            return d.value;
          }
        }
      }
    }
    return now;
  }

  // ---------------------------------------------------------------------------
  // Properties
  // ---------------------------------------------------------------------------

  /** The formats are tried in order: `j` is the first that reads `s`, or the number
      of formats when none does. */
  lemma {:induction false} TryFormatsSpec(s: string, k: nat) returns (j: nat)
    requires k <= |Formats|
    ensures k <= j <= |Formats|
    ensures forall j' :: k <= j' < j ==> Strptime(Formats[j'], s).None?
    ensures j == |Formats| ==> TryFormats(s, k) == None
    ensures j < |Formats| ==> TryFormats(s, k) == Strptime(Formats[j], s) && TryFormats(s, k).Some?
    decreases |Formats| - k
  {
    if k == |Formats| || Strptime(Formats[k], s).Some? {
      j := k;
    } else {
      j := TryFormatsSpec(s, k + 1);
    }
  }

  /** The date is that of the first expression whose first hit some format reads; the
      current date when there is none. Only the first hit of an expression is looked
      at. `k` is the deciding expression, or the number of expressions. */
  lemma {:induction false} DateIsFirstRead(text: string, now: Date, k0: nat) returns (k: nat)
    requires k0 <= PatternCount
    ensures k0 <= k <= PatternCount
    ensures forall k' :: k0 <= k' < k ==> PatternDate(k', text).None?
    ensures k == PatternCount ==> DateFrom(text, k0, now) == now
    ensures k < PatternCount ==> (SearchPattern(k, text).Some?
              && Some(DateFrom(text, k0, now)) == TryFormats(SearchPattern(k, text).value, 0))
    decreases PatternCount - k0
  {
    if k0 == PatternCount || PatternDate(k0, text).Some? {
      k := k0;
    } else {
      k := DateIsFirstRead(text, now, k0 + 1);
    }
  }

  /** The result is always a date, and a real one when `now` is. */
  lemma {:induction false} DateAlwaysValid(text: string, now: Date)
    requires ValidDate(now)
    ensures ValidDate(DateOf(text, now))
  {
    var k := DateIsFirstRead(text, now, 0);
    if k < PatternCount {
      var hit := SearchPattern(k, text).value;
      var j := TryFormatsSpec(hit, 0);
    }
  }

  /** What a text must look like for format `f` to read it: `%Y` is four digits, and
      a day-first format has its separator (or, for a month name, whitespace) right
      after a day of one or two characters. */
  predicate Shape(f: Format, s: string) {
    match f
    case Numeric(c, true) => FourDigits(s, 0) && 4 < |s| && s[4] == c
    case Numeric(c, false) =>
      7 <= |s| && (s[1] == c || s[2] == c) && s[|s| - 5] == c && FourDigits(s, |s| - 4)
    case Named(_) => 7 <= |s| && (IsSpace(s[1]) || IsSpace(s[2])) && FourDigits(s, |s| - 4)
  }

  lemma {:induction false} TryMonthsEnd(s: string, sep: char, p: nat, ms: seq<Field>, day: nat)
    requires TryMonths(s, sep, p, ms, day).Some?
    ensures var m := TryMonths(s, sep, p, ms, day).value;
            p + 5 <= m.end && FourDigits(s, m.end - 4) && s[m.end - 5] == sep
    decreases |ms|
  {
    if !(p + ms[0].len < |s| && s[p + ms[0].len] == sep && FourDigits(s, p + ms[0].len + 1)) {
      TryMonthsEnd(s, sep, p, ms[1..], day);
    }
  }

  lemma {:induction false} NamedEnd(s: string, names: seq<string>, p: nat, day: nat)
    requires NamedAfterDay(s, names, p, day).Some?
    ensures var m := NamedAfterDay(s, names, p, day).value;
            p < |s| && IsSpace(s[p]) && p + 6 <= m.end && FourDigits(s, m.end - 4)
  {
  }

  /** How a day-first match that starts with a day of `p` characters ends. */
  predicate DayFirstEnd(s: string, f: Format, p: nat, m: Fields) {
    p < |s| && p + 6 <= m.end && FourDigits(s, m.end - 4)
    && (if f.Numeric? then s[p] == f.sep && s[m.end - 5] == f.sep else IsSpace(s[p]))
  }

  lemma {:induction false} AfterDayEnd(s: string, f: Format, d: Field)
    requires f.Named? || !f.yearFirst
    requires AfterDay(s, f, d).Some?
    ensures DayFirstEnd(s, f, d.len, AfterDay(s, f, d).value)
  {
    if f.Numeric? {
      TryMonthsEnd(s, f.sep, d.len + 1, MonthAlts(s, d.len + 1), d.value);
    } else {
      NamedEnd(s, if f.full then MonthNames else MonthAbbrevs, d.len, d.value);
    }
  }

  /** A day-first match: the day alternative `ds[k]` was followed by the rest. */
  lemma {:induction false} TryDaysEnd(s: string, f: Format, ds: seq<Field>) returns (k: nat)
    requires f.Named? || !f.yearFirst
    requires TryDays(s, f, ds).Some?
    ensures k < |ds| && DayFirstEnd(s, f, ds[k].len, TryDays(s, f, ds).value)
    decreases |ds|
  {
    if AfterDay(s, f, ds[0]).Some? {
      k := 0;
      AfterDayEnd(s, f, ds[0]);
    } else {
      var k' := TryDaysEnd(s, f, ds[1..]);
      k := k' + 1;
    }
  }

  /** Every format reads only texts of its shape. */
  lemma {:induction false} StrptimeShape(f: Format, s: string)
    requires Strptime(f, s).Some?
    ensures Shape(f, s)
  {
    var m := FormatMatch(f, s).value;
    assert m.end == |s|;
    if !(f.Numeric? && f.yearFirst) {
      var ds := DayAlts(s, 0);
      assert m == TryDays(s, f, ds).value;
      var k := TryDaysEnd(s, f, ds);
      assert 1 <= ds[k].len <= 2;
    }
  }

  // ---------------------------------------------------------------------------
  // Examples
  // ---------------------------------------------------------------------------

  /** A day-first hit with dashes is read by the first format. */
  lemma {:induction false} DashedDayFirst()
    ensures TryFormats("01-04-2024", 0) == Some(Date(2024, 4, 1))
  {
    var s := "01-04-2024";
    assert s[0] == '0' && s[1] == '1' && s[2] == '-' && s[3] == '0' && s[4] == '4' && s[5] == '-';
    assert DigitValue('0') == 0 && DigitValue('1') == 1 && DigitValue('4') == 4;
    assert DayAlts(s, 0) == [Field(2, 1)] + [] + [];
    assert MonthAlts(s, 3) == [Field(2, 4)] + [];
    assert YearAt(s, 6) == 2024 by {
      assert s[6..10] == "2024";
      assert "2024"[..3] == "202" && "202"[..2] == "20" && "20"[..1] == "2" && "2"[..0] == "";
      assert DigitsValue("2") == 2;
      assert DigitsValue("20") == 20;
      assert DigitsValue("202") == 202;
    }
    assert Strptime(Formats[0], s) == Some(Date(2024, 4, 1));
  }

  const MixedText: string := "15-03/2023"
  const TwoDigitText: string := "15/03/23"

  /** The first expression accepts mixed separators, but no format reads such a hit. */
  lemma {:induction false} MixedSeparatorsUnread()
    ensures SearchPattern(0, MixedText) == Some(MixedText)
    ensures TryFormats(MixedText, 0) == None
  {
    MixedHit();
    MixedNoShape();
    NoShapeUnread(MixedText);
  }

  lemma {:induction false} MixedNoShape()
    ensures forall j :: 0 <= j < |Formats| ==> !Shape(Formats[j], MixedText)
  {
    var s := MixedText;
    assert |s| == 10 && s[1] == '5' && s[2] == '-' && s[5] == '/';
    assert !FourDigits(s, 0);
  }

  lemma {:induction false} MixedHit()
    ensures SearchPattern(0, MixedText) == Some(MixedText)
  {
    var s := MixedText;
    assert |s| == 10 && IsDigit(s[0]) && s[2] == '-' && s[5] == '/';
    MixedFields();
    WholeDayFirstHit(s, 2, 5);
  }

  lemma {:induction false} MixedFields()
    ensures DigitField(MixedText, 0, 1, 2) == Some(2)
    ensures DigitField(MixedText, 3, 1, 2) == Some(5)
    ensures DigitField(MixedText, 6, 2, 4) == Some(10)
  {
    var s := MixedText;
    assert |s| == 10;
    RunExact(s, 0, 2, IsDigit);
    RunExact(s, 3, 2, IsDigit);
    RunExact(s, 6, 4, IsDigit);
  }

  /** A text that is one whole hit of the first expression is what its search finds. */
  lemma {:induction false} WholeDayFirstHit(s: string, a: nat, b: nat)
    requires WordStart(s, 0) && DigitField(s, 0, 1, 2) == Some(a)
    requires a < |s| && IsSep(s[a]) && DigitField(s, a + 1, 1, 2) == Some(b)
    requires b < |s| && IsSep(s[b]) && DigitField(s, b + 1, 2, 4) == Some(|s|)
    ensures SearchPattern(0, s) == Some(s)
  {
    assert DayFirstAt(s, 0) == Some(|s|);
    assert s[0..|s|] == s;
    FirstMatchAt(s, 0, 0, (t: string, i: nat) => PatternAt(0, t, i));
  }

  /** The first expression accepts a two-digit year, but `%Y` needs four digits. */
  lemma {:induction false} TwoDigitYearUnread()
    ensures SearchPattern(0, TwoDigitText) == Some(TwoDigitText)
    ensures TryFormats(TwoDigitText, 0) == None
  {
    TwoDigitHit();
    TwoDigitNoShape();
    NoShapeUnread(TwoDigitText);
  }

  lemma {:induction false} TwoDigitNoShape()
    ensures forall j :: 0 <= j < |Formats| ==> !Shape(Formats[j], TwoDigitText)
  {
    var s := TwoDigitText;
    assert |s| == 8 && s[1] == '5' && s[2] == '/' && s[3] == '0';
    assert !FourDigits(s, 0) && !FourDigits(s, 4);
  }

  lemma {:induction false} TwoDigitHit()
    ensures SearchPattern(0, TwoDigitText) == Some(TwoDigitText)
  {
    var s := TwoDigitText;
    assert |s| == 8 && IsDigit(s[0]) && s[2] == '/' && s[5] == '/';
    TwoDigitFields();
    WholeDayFirstHit(s, 2, 5);
  }

  lemma {:induction false} TwoDigitFields()
    ensures DigitField(TwoDigitText, 0, 1, 2) == Some(2)
    ensures DigitField(TwoDigitText, 3, 1, 2) == Some(5)
    ensures DigitField(TwoDigitText, 6, 2, 4) == Some(8)
  {
    var s := TwoDigitText;
    assert |s| == 8;
    RunExact(s, 0, 2, IsDigit);
    RunExact(s, 3, 2, IsDigit);
    RunExact(s, 6, 2, IsDigit);
  }

  /** A text of no format's shape is read by none. */
  lemma {:induction false} NoShapeUnread(s: string)
    requires forall j :: 0 <= j < |Formats| ==> !Shape(Formats[j], s)
    ensures TryFormats(s, 0) == None
  {
    var j := TryFormatsSpec(s, 0);
    if j < |Formats| {
      StrptimeShape(Formats[j], s);
    }
  }
}

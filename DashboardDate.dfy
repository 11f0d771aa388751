/**
 * Dashboard strategy, date extraction (`extract_date` in utils.py).
 *
 * Lines holding "date", "invoice" or "billed" are searched first, pattern by pattern;
 * then the whole text. The first hit that the fuzzy date parser reads as a date of a
 * year from 2000 to next year is reported as `YYYY-MM-DD`; otherwise the result is "".
 * The fuzzy parser (dateutil's `parse(..., fuzzy=True)`) is the parameter `parse`,
 * `None` standing for the exception it raises; the current year is `nowYear`.
 */
module DashboardDate {
  import opened Wrappers
  import opened Text
  import opened Search
  import opened Calendar

  const PatternCount: nat := 5

  predicate IsDateSep(c: char) { c == '/' || c == '-' }

  /** `\b\d{1,2}[/-]\d{1,2}[/-]\d{2,4}\b` at `i`; the result is where the hit ends. */
  function DayFirstAt(s: string, i: nat): Option<nat> {
    if !WordStart(s, i) then None
    else match DigitField(s, i, 1, 2)
      case None => None
      case Some(a) =>
        if !(a < |s| && IsDateSep(s[a])) then None
        else match DigitField(s, a + 1, 1, 2)
          case None => None
          case Some(b) =>
            if !(b < |s| && IsDateSep(s[b])) then None
            else match DigitField(s, b + 1, 2, 4)
              case None => None
              case Some(c) => if WordEnd(s, c) then Some(c) else None
  }

  /** `\b\d{4}[/-]\d{1,2}[/-]\d{1,2}\b` at `i`. */
  function YearFirstAt(s: string, i: nat): Option<nat> {
    if !WordStart(s, i) then None
    else match DigitField(s, i, 4, 4)
      case None => None
      case Some(a) =>
        if !(a < |s| && IsDateSep(s[a])) then None
        else match DigitField(s, a + 1, 1, 2)
          case None => None
          case Some(b) =>
            if !(b < |s| && IsDateSep(s[b])) then None
            else match DigitField(s, b + 1, 1, 2)
              case None => None
              case Some(c) => if WordEnd(s, c) then Some(c) else None
  }

  /**
   * `\b\w{3,9}\s\d{1,2},\s\d{4}\b` at `i` ("March 15, 2024"). The word run is
   * followed by whitespace, which `\w` cannot match, so the whole run of word
   * characters must have three to nine characters.
   */
  function MonthFirstAt(s: string, i: nat): Option<nat> {
    var w := Run(s, i, IsWordChar);
    if !(WordStart(s, i) && 3 <= w <= 9 && i + w < |s| && IsSpace(s[i + w])) then None
    else match DigitField(s, i + w + 1, 1, 2)
      case None => None
      case Some(a) =>
        if !(a + 1 < |s| && s[a] == ',' && IsSpace(s[a + 1])) then None
        else match DigitField(s, a + 2, 4, 4)
          case None => None
          case Some(c) => if WordEnd(s, c) then Some(c) else None
  }

  /**
   * `\b\d{1,2}\s\w{3,9},?\s\d{4}\b` at `i` ("15 March, 2024", "15 March 2024"). After
   * the word, `,?` takes a comma when there is one; dropping it again cannot help,
   * because the whitespace would then have to match the comma.
   */
  function DayMonthAt(s: string, i: nat): Option<nat> {
    if !WordStart(s, i) then None
    else match DigitField(s, i, 1, 2)
      case None => None
      case Some(a) =>
        if !(a < |s| && IsSpace(s[a])) then None
        else
          var w := Run(s, a + 1, IsWordChar);
          var q := a + 1 + w;
          if !(3 <= w <= 9 && q < |s|) then None
          else
            var p := if s[q] == ',' then q + 2 else q + 1;
            if !(p - 1 < |s| && IsSpace(s[p - 1])) then None
            else match DigitField(s, p, 4, 4)
              case None => None
              case Some(c) => if WordEnd(s, c) then Some(c) else None
  }

  /** `\b\d{1,2}-[A-Za-z]{3}-\d{4}\b` at `i` ("15-Mar-2024"). */
  function DayAbbrevAt(s: string, i: nat): Option<nat> {
    if !WordStart(s, i) then None
    else match DigitField(s, i, 1, 2)
      case None => None
      case Some(a) =>
        if !(a + 4 < |s| && s[a] == '-' && IsAlpha(s[a + 1]) && IsAlpha(s[a + 2])
             && IsAlpha(s[a + 3]) && s[a + 4] == '-') then None
        else match DigitField(s, a + 5, 4, 4)
          case None => None
          case Some(c) => if WordEnd(s, c) then Some(c) else None
  }

  /** Pattern `k` of the list, in the source's order, matched at `i`: the matched text. */
  function PatternAt(k: nat, s: string, i: nat): (r: Option<string>)
    ensures r.Some? ==> OccursAt(s, r.value, i) && |r.value| > 0
    ensures r.Some? ==> WordStart(s, i) && WordEnd(s, i + |r.value|)
  {
    var e := if k == 0 then DayFirstAt(s, i)
             else if k == 1 then YearFirstAt(s, i)
             else if k == 2 then MonthFirstAt(s, i)
             else if k == 3 then DayMonthAt(s, i)
             else if k == 4 then DayAbbrevAt(s, i)
             else None;
    if e.Some? && i < e.value <= |s| then Some(s[i..e.value]) else None
  }

  /** `re.search(patterns[k], s).group()` */
  function SearchPattern(k: nat, s: string): Option<string> {
    FirstMatch(s, 0, (t: string, i: nat) => PatternAt(k, t, i))
  }

  /** The date kept for a hit: the parser reads it and its year is 2000 to next year. */
  function Accepted(parse: string -> Option<Date>, nowYear: nat, hit: Option<string>): (r: Option<Date>)
    ensures r.Some? ==> 2000 <= r.value.year <= nowYear + 1
    ensures r.Some? <==> hit.Some? && parse(hit.value).Some?
                         && 2000 <= parse(hit.value).value.year <= nowYear + 1
    ensures r.Some? ==> r == parse(hit.value)
  {
    if hit.Some? && parse(hit.value).Some? && 2000 <= parse(hit.value).value.year <= nowYear + 1
    then parse(hit.value) else None
  }

  function PatternDate(parse: string -> Option<Date>, nowYear: nat, s: string, k: nat): Option<Date> {
    Accepted(parse, nowYear, SearchPattern(k, s))
  }

  /** The patterns from `k` on, tried in order on `s`; the first accepted date. */
  function PatternsDate(parse: string -> Option<Date>, nowYear: nat, s: string, k: nat): Option<Date>
    decreases PatternCount - k
  {
    if k >= PatternCount then None
    else if PatternDate(parse, nowYear, s, k).Some? then PatternDate(parse, nowYear, s, k)
    else PatternsDate(parse, nowYear, s, k + 1)
  }

  /** A line that holds "date", "invoice" or "billed", in any letter case. */
  predicate IsDateLine(line: string) {
    ContainsAny(Lower(line), ["date", "invoice", "billed"])
  }

  /** A line that settles the result of the first loop. */
  predicate LineHit(parse: string -> Option<Date>, nowYear: nat, line: string) {
    IsDateLine(line) && PatternsDate(parse, nowYear, line, 0).Some?
  }

  /** The first loop of `extract_date`, over `lines`. */
  function ContextDate(parse: string -> Option<Date>, nowYear: nat, lines: seq<string>): Option<Date>
    decreases |lines|
  {
    if |lines| == 0 then None
    else if LineHit(parse, nowYear, lines[0]) then PatternsDate(parse, nowYear, lines[0], 0)
    else ContextDate(parse, nowYear, lines[1..])
  }

  /** The date `extract_date` settles on, if any. */
  function DateOf(parse: string -> Option<Date>, nowYear: nat, text: string): Option<Date> {
    var c := ContextDate(parse, nowYear, SplitLines(text));
    if c.Some? then c else PatternsDate(parse, nowYear, text, 0)
  }

  /** `str(dt.date())`, or "" when nothing was found. */
  function DateText(d: Option<Date>): string {
    if d.Some? then IsoText(d.value) else ""
  }

  /** One `for pat in patterns` loop of `extract_date` over `s`: the first accepted date. */
  method SearchPatterns(parse: string -> Option<Date>, nowYear: nat, s: string) returns (r: Option<Date>)
    ensures r == PatternsDate(parse, nowYear, s, 0)
  {
    for k := 0 to PatternCount
      invariant PatternsDate(parse, nowYear, s, 0) == PatternsDate(parse, nowYear, s, k)
    {
      var m := SearchPattern(k, s);
      if m.Some? {
        var dt := parse(m.value);
        if dt.Some? && 2000 <= dt.value.year <= nowYear + 1 {
          return dt;
        }
      }
    }
    return None;
  }

  method ExtractDate(parse: string -> Option<Date>, nowYear: nat, text: string) returns (r: string)
    ensures r == DateText(DateOf(parse, nowYear, text))
  {
    var lines := SplitLines(text);
    for i := 0 to |lines|
      invariant ContextDate(parse, nowYear, lines) == ContextDate(parse, nowYear, lines[i..])
    {
      var line := lines[i];
      assert lines[i..][1..] == lines[i + 1..];
      if IsDateLine(line) {
        var dt := SearchPatterns(parse, nowYear, line);
        if dt.Some? {
          return IsoText(dt.value);
        }
      }
    }
    var dt := SearchPatterns(parse, nowYear, text);
    if dt.Some? {
      return IsoText(dt.value);
    }
    return "";
  }

  // ---------------------------------------------------------------------------
  // Properties
  // ---------------------------------------------------------------------------

  /** The patterns are tried in order: the result is the date of the first pattern
      whose hit is accepted, and there is none exactly when no pattern's hit is. */
  lemma {:induction false} PatternsDateFirst(parse: string -> Option<Date>, nowYear: nat, s: string, k: nat)
    ensures PatternsDate(parse, nowYear, s, k).None? <==>
              forall j :: k <= j < PatternCount ==> PatternDate(parse, nowYear, s, j).None?
    ensures PatternsDate(parse, nowYear, s, k).Some? ==>
              exists j :: k <= j < PatternCount
                && PatternsDate(parse, nowYear, s, k) == PatternDate(parse, nowYear, s, j)
                && forall j' :: k <= j' < j ==> PatternDate(parse, nowYear, s, j').None?
    decreases PatternCount - k
  {
    if k < PatternCount && PatternDate(parse, nowYear, s, k).None? {
      PatternsDateFirst(parse, nowYear, s, k + 1);
      if PatternsDate(parse, nowYear, s, k).Some? {
        var j :| k + 1 <= j < PatternCount
                 && PatternsDate(parse, nowYear, s, k + 1) == PatternDate(parse, nowYear, s, j)
                 && forall j' :: k + 1 <= j' < j ==> PatternDate(parse, nowYear, s, j').None?;
        assert forall j' :: k <= j' < j ==> PatternDate(parse, nowYear, s, j').None?;
      }
    }
  }

  /** The first loop settles on the first line holding "date", "invoice" or "billed"
      and yields an accepted date; it settles on nothing exactly when no line does. */
  lemma {:induction false} ContextDateFirst(parse: string -> Option<Date>, nowYear: nat, lines: seq<string>)
    ensures ContextDate(parse, nowYear, lines).None? <==>
              forall j :: 0 <= j < |lines| ==> !LineHit(parse, nowYear, lines[j])
    ensures ContextDate(parse, nowYear, lines).Some? ==>
              exists j :: 0 <= j < |lines| && LineHit(parse, nowYear, lines[j])
                && ContextDate(parse, nowYear, lines) == PatternsDate(parse, nowYear, lines[j], 0)
                && forall j' :: 0 <= j' < j ==> !LineHit(parse, nowYear, lines[j'])
    decreases |lines|
  {
    if |lines| > 0 && !LineHit(parse, nowYear, lines[0]) {
      var rest := lines[1..];
      ContextDateFirst(parse, nowYear, rest);
      assert forall j :: 1 <= j < |lines| ==> lines[j] == rest[j - 1];
      if ContextDate(parse, nowYear, lines).Some? {
        var j :| 0 <= j < |rest| && LineHit(parse, nowYear, rest[j])
                 && ContextDate(parse, nowYear, rest) == PatternsDate(parse, nowYear, rest[j], 0)
                 && forall j' :: 0 <= j' < j ==> !LineHit(parse, nowYear, rest[j']);
        assert forall j' :: 0 <= j' < j + 1 ==> !LineHit(parse, nowYear, lines[j']);
      }
    }
  }

  /** The parser gives only real dates, as `dateutil` does: its result is a
      `datetime`, whose `date()` is always a valid calendar date. */
  ghost predicate ReadsRealDates(parse: string -> Option<Date>) {
    forall t :: parse(t).Some? ==> ValidDate(parse(t).value)
  }

  /** A date found is one the parser read from a pattern hit, of a year from 2000 to
      next year; on the text it reads as that date again, in ISO form. */
  lemma {:induction false} DateOfBounds(parse: string -> Option<Date>, nowYear: nat, text: string)
    requires ReadsRealDates(parse)
    ensures DateOf(parse, nowYear, text).Some? ==>
              2000 <= DateOf(parse, nowYear, text).value.year <= nowYear + 1
    ensures DateOf(parse, nowYear, text).Some? ==>
              ParseIso(DateText(DateOf(parse, nowYear, text))) == DateOf(parse, nowYear, text)
    ensures DateText(DateOf(parse, nowYear, text)) == "" <==> DateOf(parse, nowYear, text).None?
  {
    var lines := SplitLines(text);
    ContextDateFirst(parse, nowYear, lines);
    var d := DateOf(parse, nowYear, text);
    if ContextDate(parse, nowYear, lines).Some? {
      var j :| 0 <= j < |lines| && LineHit(parse, nowYear, lines[j])
               && ContextDate(parse, nowYear, lines) == PatternsDate(parse, nowYear, lines[j], 0)
               && forall j' :: 0 <= j' < j ==> !LineHit(parse, nowYear, lines[j']);
      PatternsDateBounds(parse, nowYear, lines[j], 0);
      PatternsDateValid(parse, nowYear, lines[j], 0);
    } else {
      PatternsDateBounds(parse, nowYear, text, 0);
      PatternsDateValid(parse, nowYear, text, 0);
    }
    if d.Some? {
      IsoRoundTrip(d.value);
    }
  }

  /** With such a parser, every accepted date of a line is a real date. */
  lemma {:induction false} PatternsDateValid(parse: string -> Option<Date>, nowYear: nat, s: string, k: nat)
    requires ReadsRealDates(parse)
    ensures PatternsDate(parse, nowYear, s, k).Some? ==> ValidDate(PatternsDate(parse, nowYear, s, k).value)
    decreases PatternCount - k
  {
    if k < PatternCount && PatternDate(parse, nowYear, s, k).None? {
      PatternsDateValid(parse, nowYear, s, k + 1);
    }
  }

  lemma {:induction false} PatternsDateBounds(parse: string -> Option<Date>, nowYear: nat, s: string, k: nat)
    ensures PatternsDate(parse, nowYear, s, k).Some? ==>
              2000 <= PatternsDate(parse, nowYear, s, k).value.year <= nowYear + 1
  {
    PatternsDateFirst(parse, nowYear, s, k);
  }

  /** A context line is preferred to a better-ranked pattern elsewhere in the text. */
  lemma {:induction false} ContextLineWins(parse: string -> Option<Date>, nowYear: nat, text: string, j: nat)
    requires j < |SplitLines(text)| && LineHit(parse, nowYear, SplitLines(text)[j])
    requires forall j' :: 0 <= j' < j ==> !LineHit(parse, nowYear, SplitLines(text)[j'])
    ensures DateOf(parse, nowYear, text) == PatternsDate(parse, nowYear, SplitLines(text)[j], 0)
  {
    var lines := SplitLines(text);
    ContextDateFirst(parse, nowYear, lines);
    var j0 :| 0 <= j0 < |lines| && LineHit(parse, nowYear, lines[j0])
              && ContextDate(parse, nowYear, lines) == PatternsDate(parse, nowYear, lines[j0], 0)
              && forall j' :: 0 <= j' < j0 ==> !LineHit(parse, nowYear, lines[j']);
    assert j0 == j;
  }

  const SampleLine: string := "Date: 12/03/2024"

  lemma {:induction false} SampleLineMiss(k: nat)
    requires k < 6
    ensures PatternAt(0, SampleLine, k).None?
  {
    assert !IsDigit(SampleLine[k]);
    assert Run(SampleLine, k, IsDigit) == 0;
  }

  lemma {:induction false} SampleLineHit()
    ensures PatternAt(0, SampleLine, 6) == Some("12/03/2024")
  {
    SampleLineFields();
  }

  lemma {:induction false} SampleLineFields()
    ensures PatternAt(0, SampleLine, 6) == Some(SampleLine[6..16])
    ensures SampleLine[6..16] == "12/03/2024"
  {
    SampleLineRuns();
    assert SampleLine[6..16] == "12/03/2024";
  }

  lemma {:induction false} SampleLineRuns()
    ensures Run(SampleLine, 6, IsDigit) == 2 && Run(SampleLine, 9, IsDigit) == 2
    ensures Run(SampleLine, 12, IsDigit) == 4
  {
    SampleDayRun();
    SampleMonthRun();
    SampleYearRun();
  }

  lemma {:induction false} SampleDayRun()
    ensures Run(SampleLine, 6, IsDigit) == 2
  {
    var s := SampleLine;
    assert Run(s, 8, IsDigit) == 0;
    assert Run(s, 7, IsDigit) == 1;
  }

  lemma {:induction false} SampleMonthRun()
    ensures Run(SampleLine, 9, IsDigit) == 2
  {
    var s := SampleLine;
    assert Run(s, 11, IsDigit) == 0;
    assert Run(s, 10, IsDigit) == 1;
  }

  lemma {:induction false} SampleYearRun()
    ensures Run(SampleLine, 12, IsDigit) == 4
  {
    var s := SampleLine;
    assert Run(s, 16, IsDigit) == 0;
    assert Run(s, 15, IsDigit) == 1;
    assert Run(s, 14, IsDigit) == 2;
    assert Run(s, 13, IsDigit) == 3;
  }

  /** A day-first date on a date line. */
  lemma {:induction false} DayFirstExample()
    ensures SearchPattern(0, SampleLine) == Some("12/03/2024")
  {
    var m := (t: string, i: nat) => PatternAt(0, t, i);
    forall k | 0 <= k < 6 ensures m(SampleLine, k).None? {
      SampleLineMiss(k);
    }
    SampleLineHit();
    FirstMatchAt(SampleLine, 0, 6, m);
  }
}

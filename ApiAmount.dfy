/**
 * API strategy, amount extraction (`extract_amount` in ocr_parser.py).
 *
 * Two expressions are tried in order, and the first hit of the first one that hits
 * anywhere gives the amount, with its commas removed:
 *   labelled: (Total Amount|Grand Total|Amount Paid|Total)\s*[:\-]?\s*[₹$€£]??\s*([\d,]+\.?\d{0,2})
 *             ignoring letter case;
 *   plain:    [₹$€£]?\s*([\d,]+\.\d{2})
 * A fallback that takes the largest hit of the plain expression follows, and then 0.
 * An amount is in cents; `float` failing on the number (nothing but commas) is the
 * `Failure` that the upload handler turns into an HTTP 400 answer.
 */
module ApiAmount {
  import opened Wrappers
  import opened Text
  import opened Decimal
  import opened Search

  predicate IsDigitOrComma(c: char) { IsDigit(c) || c == ',' }

  /** The alternatives of the label group, lower-cased, in their order. */
  const Labels: seq<string> := ["total amount", "grand total", "amount paid", "total"]

  /** The number group of a hit: `[\d,]+`, whether `\.` took part, the digits after
      it, and where the hit ends. */
  datatype NumberMatch = NumberMatch(run: string, dot: bool, frac: string, end: nat)

  predicate WellFormed(m: NumberMatch) {
    |m.run| > 0 && (forall k :: 0 <= k < |m.run| ==> IsDigitOrComma(m.run[k]))
    && |m.frac| <= 2 && AllDigits(m.frac) && (!m.dot ==> m.frac == "")
  }

  /** The lower-case `word` at `i`, ignoring letter case. */
  predicate LabelAt(s: string, i: nat, word: string) {
    i + |word| <= |s| && forall k :: 0 <= k < |word| ==> LowerChar(s[i + k]) == word[k]
  }

  /**
   * `\s*[:\-]?\s*[₹$€£]??\s*` from `p`, followed by a character that can start the
   * number: where the number starts. Both runs of whitespace are taken whole, a colon
   * or a dash when there is one; the lazy symbol is first left out and is taken only
   * when a symbol, and not a digit or comma, follows. Giving back whitespace or the
   * colon never lets the number start elsewhere.
   */
  function TailAt(s: string, p: nat): (r: Option<nat>)
    ensures r.Some? ==> p <= r.value < |s| && IsDigitOrComma(s[r.value])
  {
    var a := p + Run(s, p, IsSpace);
    var b := if a < |s| && (s[a] == ':' || s[a] == '-') then a + 1 else a;
    var c := b + Run(s, b, IsSpace);
    if c < |s| && IsDigitOrComma(s[c]) then Some(c)
    else if c < |s| && IsCurrencySymbol(s[c]) then
      var d := c + 1 + Run(s, c + 1, IsSpace);
      if d < |s| && IsDigitOrComma(s[d]) then Some(d) else None
    else None
  }

  /** `([\d,]+\.?\d{0,2})` at `q`, where a digit or comma stands; nothing follows the
      group, so each part takes as much as it can. */
  function LabelledNumber(s: string, q: nat): (m: NumberMatch)
    requires q < |s| && IsDigitOrComma(s[q])
    ensures WellFormed(m) && q < m.end <= |s|
  {
    var e := q + Run(s, q, IsDigitOrComma);
    if e < |s| && s[e] == '.' then
      var f := Run(s, e + 1, IsDigit);
      var f2 := if f < 2 then f else 2;
      NumberMatch(s[q..e], true, s[e + 1..e + 1 + f2], e + 1 + f2)
    else NumberMatch(s[q..e], false, "", e)
  }

  /** The labelled expression at `i`, trying the labels from index `k` on: a label that
      matches but is not followed by a number gives way to the next one. */
  function LabelledFrom(s: string, i: nat, k: nat): (r: Option<NumberMatch>)
    requires k <= |Labels|
    ensures r.Some? ==> WellFormed(r.value) && i < r.value.end <= |s|
    decreases |Labels| - k
  {
    if k == |Labels| then None
    else if LabelAt(s, i, Labels[k]) && TailAt(s, i + |Labels[k]|).Some? then
      Some(LabelledNumber(s, TailAt(s, i + |Labels[k]|).value))
    else LabelledFrom(s, i, k + 1)
  }

  function LabelledAt(s: string, i: nat): (r: Option<NumberMatch>)
    ensures r.Some? ==> WellFormed(r.value) && i < r.value.end <= |s|
  {
    LabelledFrom(s, i, 0)
  }

  /** The plain expression at `i`. A symbol is taken when present and whitespace taken
      whole; `[\d,]+` must then stop right at a point followed by two digits. */
  function PlainAt(s: string, i: nat): (r: Option<NumberMatch>)
    ensures r.Some? ==> WellFormed(r.value) && r.value.dot && |r.value.frac| == 2
    ensures r.Some? ==> i < r.value.end <= |s|
  {
    var p := if i < |s| && IsCurrencySymbol(s[i]) then i + 1 else i;
    var q := p + Run(s, p, IsSpace);
    var e := q + Run(s, q, IsDigitOrComma);
    if q < e && e + 2 < |s| && s[e] == '.' && IsDigit(s[e + 1]) && IsDigit(s[e + 2])
    then Some(NumberMatch(s[q..e], true, s[e + 1..e + 3], e + 3))
    else None
  }

  /** `number.replace(',', '')` without the point and the fraction: the integer digits. */
  function WholeDigits(m: NumberMatch): string {
    ReplaceAll(m.run, ",", "")
  }

  /** `float(number.replace(',', ''))` in cents, for a number that has a digit. */
  function Cents(m: NumberMatch): nat
    requires WellFormed(m)
  {
    100 * DigitsValue(WholeDigits(m)) + FractionCents(m.frac)
  }

  /** `float(number.replace(',', ''))`: it fails, as `ValueError`, on "" and on ".". */
  function ParseNumber(m: NumberMatch): (r: Result<nat, string>)
    requires WellFormed(m)
  {
    var text := WholeDigits(m) + (if m.dot then "." + m.frac else "");
    if WholeDigits(m) == "" && m.frac == "" then
      Failure("could not convert string to float: '" + text + "'")
    else Success(Cents(m))
  }

  /** `re.findall` of the plain expression from `i`. */
  function PlainMatchesFrom(s: string, i: nat): (ms: seq<NumberMatch>)
    ensures forall k :: 0 <= k < |ms| ==> WellFormed(ms[k])
    decreases |s| - i
  {
    if i >= |s| then []
    else
      var r := FirstMatch(s, i, PlainAt);
      if r.None? then []
      else
        assert WellFormed(r.value) && i < r.value.end <= |s| by {
          FirstMatchSpec(s, i, PlainAt);
        }
        [r.value] + PlainMatchesFrom(s, r.value.end)
  }

  /** `max(float(n.replace(',', '')) for n in all_numbers)` */
  function MaxCents(ms: seq<NumberMatch>): (c: nat)
    requires |ms| > 0 && forall k :: 0 <= k < |ms| ==> WellFormed(ms[k])
    ensures forall k :: 0 <= k < |ms| ==> Cents(ms[k]) <= c
    ensures exists k :: 0 <= k < |ms| && Cents(ms[k]) == c
  {
    if |ms| == 1 then Cents(ms[0])
    else
      var c := MaxCents(ms[1..]);
      assert forall k :: 1 <= k < |ms| ==> ms[k] == ms[1..][k - 1];
      if Cents(ms[0]) >= c then Cents(ms[0]) else c
  }

  // The two expressions of the list, in order: 0 is the labelled one, 1 the plain one.
  const PatternCount: nat := 2

  function SearchPattern(k: nat, s: string): (r: Option<NumberMatch>)
    ensures r.Some? ==> WellFormed(r.value)
  {
    var r := if k == 0 then FirstMatch(s, 0, LabelledAt) else FirstMatch(s, 0, PlainAt);
    assert r.Some? ==> WellFormed(r.value) by {
      if k == 0 { FirstMatchSpec(s, 0, LabelledAt); } else { FirstMatchSpec(s, 0, PlainAt); }
    }
    r
  }

  /** What is left after the patterns fail: the fallback, then 0. */
  function Fallback(text: string): Result<nat, string> {
    var all := PlainMatchesFrom(text, 0);
    if |all| > 0 then Success(MaxCents(all)) else Success(0)
  }

  /** The loop over the patterns from index `k` on. */
  function AmountFrom(text: string, k: nat): Result<nat, string>
    decreases PatternCount - k
  {
    if k >= PatternCount then Fallback(text)
    else if SearchPattern(k, text).Some? then ParseNumber(SearchPattern(k, text).value)
    else AmountFrom(text, k + 1)
  }

  /** What `extract_amount` returns, or the error it raises. */
  function AmountOf(text: string): Result<nat, string> {
    AmountFrom(text, 0)
  }

  method ExtractAmount(text: string) returns (r: Result<nat, string>)
    ensures r == AmountOf(text)
  {
    for k := 0 to PatternCount
      invariant AmountOf(text) == AmountFrom(text, k)
    {
      var m := SearchPattern(k, text);
      if m.Some? {
        return ParseNumber(m.value);
      }
    }
    var all := PlainMatchesFrom(text, 0);
    if |all| > 0 {
      return Success(MaxCents(all));
    }
    return Success(0);
  }

  // ---------------------------------------------------------------------------
  // Properties
  // ---------------------------------------------------------------------------

  /** The number fails to convert exactly when it holds no digit: then it is made of
      commas, with at most a point after them. */
  lemma {:induction false} ParseFailsIff(m: NumberMatch)
    requires WellFormed(m)
    ensures ParseNumber(m).Failure? <==>
              (forall k :: 0 <= k < |m.run| ==> m.run[k] == ',') && m.frac == ""
    ensures ParseNumber(m).Success? ==> ParseNumber(m).value == Cents(m)
  {
    CommasOnly(m.run);
  }

  /** Removing the commas leaves nothing exactly when there was nothing else. */
  lemma {:induction false} CommasOnly(run: string)
    ensures ReplaceAll(run, ",", "") == "" <==> forall k :: 0 <= k < |run| ==> run[k] == ','
    decreases |run|
  {
    if |run| > 0 {
      CommasOnly(run[1..]);
      assert forall k :: 1 <= k < |run| ==> run[k] == run[1..][k - 1];
    }
  }

  /** With commas removed, the integer part is made of digits only. */
  lemma {:induction false} WholeIsDigits(run: string)
    requires forall k :: 0 <= k < |run| ==> IsDigitOrComma(run[k])
    ensures AllDigits(ReplaceAll(run, ",", ""))
    decreases |run|
  {
    if |run| > 0 {
      assert forall k :: 0 <= k < |run[1..]| ==> IsDigitOrComma(run[1..][k]) by {
        forall k | 0 <= k < |run[1..]| ensures IsDigitOrComma(run[1..][k]) {
          assert run[1..][k] == run[k + 1];
        }
      }
      WholeIsDigits(run[1..]);
    }
  }

  /** The fallback is the plain expression once more: when the plain expression does not
      hit, the fallback finds nothing either and the amount is 0. */
  lemma {:induction false} FallbackNeverHits(text: string)
    requires SearchPattern(0, text).None? && SearchPattern(1, text).None?
    ensures PlainMatchesFrom(text, 0) == []
    ensures AmountOf(text) == Success(0)
  {
    assert AmountOf(text) == AmountFrom(text, 1);
    assert AmountFrom(text, 1) == AmountFrom(text, 2);
  }

  /** A labelled hit wins over everything else: the first position where the labelled
      expression hits gives the amount (or the conversion error). */
  lemma {:induction false} LabelledWins(text: string, i: nat)
    requires i <= |text| && LabelledAt(text, i).Some?
    requires forall k :: 0 <= k < i ==> LabelledAt(text, k).None?
    ensures AmountOf(text) == ParseNumber(LabelledAt(text, i).value)
  {
    FirstMatchAt(text, 0, i, LabelledAt);
  }

  /** Without a labelled hit anywhere, the first plain hit gives the amount, and it
      always converts. */
  lemma {:induction false} PlainWhenNoLabel(text: string, i: nat)
    requires forall k :: 0 <= k <= |text| ==> LabelledAt(text, k).None?
    requires i <= |text| && PlainAt(text, i).Some?
    requires forall k :: 0 <= k < i ==> PlainAt(text, k).None?
    ensures AmountOf(text) == Success(Cents(PlainAt(text, i).value))
  {
    FirstMatchSpec(text, 0, LabelledAt);
    FirstMatchAt(text, 0, i, PlainAt);
    var m := PlainAt(text, i).value;
    assert m.frac != "";
    assert AmountOf(text) == AmountFrom(text, 1);
  }

  /** The amount is never an error unless a labelled hit is all commas. */
  lemma {:induction false} FailureOnlyFromLabel(text: string)
    ensures AmountOf(text).Failure? ==>
              SearchPattern(0, text).Some? && ParseNumber(SearchPattern(0, text).value).Failure?
  {
    if SearchPattern(0, text).None? {
      assert AmountOf(text) == AmountFrom(text, 1);
      if SearchPattern(1, text).Some? {
        var m := SearchPattern(1, text).value;
        FirstMatchSpec(text, 0, PlainAt);
        assert m.frac != "";
      } else {
        assert AmountFrom(text, 1) == AmountFrom(text, 2);
      }
    }
  }

  // ---------------------------------------------------------------------------
  // Examples
  // ---------------------------------------------------------------------------

  /** A label whose `k`-th letter differs from the text's does not match there. */
  lemma {:induction false} LabelMismatch(s: string, i: nat, word: string, k: nat)
    requires k < |word| && i + k < |s| && LowerChar(s[i + k]) != word[k]
    ensures !LabelAt(s, i, word)
  {
  }

  /** No label starts at a character other than t, g or a, in either case. */
  lemma {:induction false} NoLabelAtChar(s: string, i: nat)
    requires i < |s| && LowerChar(s[i]) != 't' && LowerChar(s[i]) != 'g' && LowerChar(s[i]) != 'a'
    ensures LabelledAt(s, i).None?
  {
    LabelMismatch(s, i, Labels[0], 0);
    LabelMismatch(s, i, Labels[1], 0);
    LabelMismatch(s, i, Labels[2], 0);
    LabelMismatch(s, i, Labels[3], 0);
  }

  const SubtotalLine: string := "Subtotal: 12.50"

  /** A label may sit inside a word: "total" in "Subtotal" starts the first hit. */
  lemma {:induction false} SubtotalIsLabelled()
    ensures AmountOf(SubtotalLine) == Success(1250)
  {
    forall k | 0 <= k < 3 ensures LabelledAt(SubtotalLine, k).None? {
      SubtotalMiss(k);
    }
    SubtotalHit();
    LabelledWins(SubtotalLine, 3);
    SubtotalCents();
  }

  lemma {:induction false} SubtotalMiss(k: nat)
    requires k < 3
    ensures LabelledAt(SubtotalLine, k).None?
  {
    assert LowerChar(SubtotalLine[k]) in "sub";
    NoLabelAtChar(SubtotalLine, k);
  }

  lemma {:induction false} SubtotalHit()
    ensures LabelledAt(SubtotalLine, 3) == Some(NumberMatch("12", true, "50", 15))
  {
    var s := SubtotalLine;
    LabelMismatch(s, 3, Labels[0], 5);
    LabelMismatch(s, 3, Labels[1], 0);
    LabelMismatch(s, 3, Labels[2], 0);
    assert LabelAt(s, 3, Labels[3]);
    SubtotalTail();
    SubtotalNumber();
  }

  lemma {:induction false} SubtotalTail()
    ensures TailAt(SubtotalLine, 8) == Some(10)
  {
    var s := SubtotalLine;
    RunExact(s, 8, 0, IsSpace);
    RunExact(s, 9, 1, IsSpace);
  }

  lemma {:induction false} SubtotalNumber()
    ensures LabelledNumber(SubtotalLine, 10) == NumberMatch("12", true, "50", 15)
  {
    var s := SubtotalLine;
    RunExact(s, 10, 2, IsDigitOrComma);
    RunExact(s, 13, 2, IsDigit);
    assert s[10..12] == "12" && s[13..15] == "50";
  }

  lemma {:induction false} SubtotalCents()
    ensures ParseNumber(NumberMatch("12", true, "50", 15)) == Success(1250)
  {
    assert ReplaceAll("12", ",", "") == "12";
    assert DigitsValue("12") == 12 by {
      assert "12"[..1] == "1" && "1"[..0] == "";
    }
  }

  const CommaLine: string := "Total, cash"

  /** A label followed by nothing but a comma: `float("")` fails. */
  lemma {:induction false} CommaAfterLabelFails()
    ensures AmountOf(CommaLine) == Failure("could not convert string to float: ''")
  {
    CommaHit();
    LabelledWins(CommaLine, 0);
    CommaParse();
  }

  lemma {:induction false} CommaHit()
    ensures LabelledAt(CommaLine, 0) == Some(NumberMatch(",", false, "", 6))
  {
    var s := CommaLine;
    assert |Labels[0]| > |s|;
    LabelMismatch(s, 0, Labels[1], 0);
    LabelMismatch(s, 0, Labels[2], 0);
    assert LabelAt(s, 0, Labels[3]);
    CommaTail();
  }

  lemma {:induction false} CommaTail()
    ensures TailAt(CommaLine, 5) == Some(5)
    ensures LabelledNumber(CommaLine, 5) == NumberMatch(",", false, "", 6)
  {
    var s := CommaLine;
    RunExact(s, 5, 0, IsSpace);
    RunExact(s, 5, 1, IsDigitOrComma);
    assert s[5..6] == ",";
  }

  lemma {:induction false} CommaParse()
    ensures ParseNumber(NumberMatch(",", false, "", 6)) == Failure("could not convert string to float: ''")
  {
    assert ReplaceAll(",", ",", "") == "";
    assert "could not convert string to float: '" + "" + "'" == "could not convert string to float: ''";
  }
}

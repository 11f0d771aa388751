/**
 * Dashboard strategy, amount extraction (`extract_amount` in utils.py).
 *
 * The text is normalised (commas dropped, "INR" and "Rs." rewritten to the rupee
 * sign), split into lines, and every hit of the expression
 *     (₹|\$|€|£)?\s?(\d{2,10}(?:\.\d{1,2})?)
 * on a line becomes a candidate scored by keywords of its line. The first candidate of
 * maximal score wins and is rendered as its symbol followed by `str(float(number))`.
 */
module DashboardAmount {
  import opened Wrappers
  import opened Text
  import opened Decimal
  import opened Search

  // ---------------------------------------------------------------------------
  // Normalisation
  // ---------------------------------------------------------------------------

  /** `text.replace(",", "").replace("INR", "₹").replace("Rs.", "₹")` */
  function Normalise(text: string): string {
    ReplaceAll(ReplaceAll(ReplaceAll(text, ",", ""), "INR", "₹"), "Rs.", "₹")
  }

  /** After normalisation no comma, no "INR" and no "Rs." is left. */
  lemma {:induction false} NormaliseClean(text: string)
    ensures ',' !in Normalise(text)
    ensures !Contains(Normalise(text), "INR") && !Contains(Normalise(text), "Rs.")
  {
    var t1 := ReplaceAll(text, ",", "");
    var t2 := ReplaceAll(t1, "INR", "₹");
    var t3 := ReplaceAll(t2, "Rs.", "₹");
    CharRemoved(text, ',');
    NoCharNoOccurrence(t1, ',');
    NoNewOccurrenceNone(t1, "INR", "₹", ",");
    NoNewOccurrenceNone(t2, "Rs.", "₹", ",");
    forall i ensures !OccursAt(t2, "INR", i) {
      ReplacedAway(t1, "INR", "₹", i);
    }
    NoNewOccurrenceNone(t2, "Rs.", "₹", "INR");
    forall i ensures !OccursAt(t3, "Rs.", i) {
      ReplacedAway(t2, "Rs.", "₹", i);
    }
    ContainsIff(t3, "INR");
    ContainsIff(t3, "Rs.");
    NoOccurrenceNoChar(t3, ',');
  }

  lemma {:induction false} NoCharNoOccurrence(s: string, c: char)
    requires c !in s
    ensures forall j :: !OccursAt(s, [c], j)
  {
    forall j ensures !OccursAt(s, [c], j) {
      if 0 <= j && j + 1 <= |s| {
        assert s[j..j + 1][0] == s[j];
      }
    }
  }

  lemma {:induction false} NoOccurrenceNoChar(s: string, c: char)
    requires forall j :: !OccursAt(s, [c], j)
    ensures c !in s
  {
    forall k | 0 <= k < |s| ensures s[k] != c {
      assert !OccursAt(s, [c], k);
      assert s[k..k + 1] == [s[k]];
    }
  }

  /** A word foreign to the replacement that does not occur before does not occur after. */
  lemma {:induction false} NoNewOccurrenceNone(t: string, pat: string, rep: string, w: string)
    requires |pat| > 0 && |rep| > 0 && |w| > 0 && Disjoint(w, rep)
    requires forall j :: !OccursAt(t, w, j)
    ensures forall i :: !OccursAt(ReplaceAll(t, pat, rep), w, i)
  {
    forall i | OccursAt(ReplaceAll(t, pat, rep), w, i) ensures false {
      var _ := NoNewOccurrence(t, pat, rep, w, i);
    }
  }

  // ---------------------------------------------------------------------------
  // The amount expression, matched by hand
  // ---------------------------------------------------------------------------

  /** One hit of the amount expression: where it ends, the symbol group ("" when the
      optional group did not take part) and the digits before and after the point. */
  datatype AmountMatch = AmountMatch(end: nat, symbol: string, whole: string, frac: string)

  predicate IsSymbolGroup(sym: string) {
    sym == "" || (|sym| == 1 && IsCurrencySymbol(sym[0]))
  }

  predicate ValidMatch(m: AmountMatch) {
    IsSymbolGroup(m.symbol) && 2 <= |m.whole| <= 10 && AllDigits(m.whole)
    && |m.frac| <= 2 && AllDigits(m.frac)
  }

  /**
   * `\d{2,10}(?:\.\d{1,2})?` at `p`. Nothing follows this group in the expression, so
   * the greedy first attempt is the match: up to ten digits, then a point and one or
   * two digits when a digit follows the point.
   */
  function NumberAt(s: string, p: nat, sym: string): (r: Option<AmountMatch>)
    requires IsSymbolGroup(sym)
    ensures r.Some? ==> ValidMatch(r.value) && p + 2 <= r.value.end <= |s| && r.value.symbol == sym
    ensures r.Some? <==> p + 1 < |s| && IsDigit(s[p]) && IsDigit(s[p + 1])
  {
    var n := Run(s, p, IsDigit);
    if n < 2 then None
    else
      var q := p + (if n < 10 then n else 10);
      if q + 1 < |s| && s[q] == '.' && IsDigit(s[q + 1]) then
        var f := if q + 2 < |s| && IsDigit(s[q + 2]) then 2 else 1;
        Some(AmountMatch(q + 1 + f, sym, s[p..q], s[q + 1..q + 1 + f]))
      else
        Some(AmountMatch(q, sym, s[p..q], ""))
  }

  /**
   * The whole expression at start position `i`. A symbol is taken when present, then at
   * most one whitespace character; backing off either never helps, because neither a
   * symbol nor whitespace can start the digits.
   */
  function AmountMatchAt(s: string, i: nat): (r: Option<AmountMatch>)
    ensures r.Some? ==> ValidMatch(r.value) && i < r.value.end <= |s|
  {
    if i < |s| && IsCurrencySymbol(s[i]) then
      NumberAt(s, if i + 1 < |s| && IsSpace(s[i + 1]) then i + 2 else i + 1, [s[i]])
    else
      NumberAt(s, if i < |s| && IsSpace(s[i]) then i + 1 else i, "")
  }

  /** `re.findall` from position `i`: search for the expression, take the hit and go
      on searching where it ends, so the hits are ordered and do not overlap. */
  function AmountMatchesFrom(s: string, i: nat): (ms: seq<AmountMatch>)
    ensures forall k :: 0 <= k < |ms| ==> ValidMatch(ms[k])
    decreases |s| - i
  {
    if i >= |s| then []
    else
      var r := FirstMatch(s, i, AmountMatchAt);
      if r.None? then []
      else
        assert ValidMatch(r.value) && i < r.value.end <= |s| by {
          FirstMatchSpec(s, i, AmountMatchAt);
        }
        [r.value] + AmountMatchesFrom(s, r.value.end)
  }

  function FindAmounts(line: string): seq<AmountMatch> {
    AmountMatchesFrom(line, 0)
  }

  /** Two adjacent ASCII digits somewhere in `s`. */
  predicate HasDigitPair(s: string) {
    exists i :: 0 <= i && i + 1 < |s| && IsDigit(s[i]) && IsDigit(s[i + 1])
  }

  /** A line yields a hit exactly when it holds two adjacent digits. */
  lemma {:induction false} FindAmountsIff(line: string)
    ensures FindAmounts(line) != [] <==> HasDigitPair(line)
  {
    if |line| > 0 {
      FirstMatchSpec(line, 0, AmountMatchAt);
    }
    if FindAmounts(line) != [] {
      var j :| 0 <= j <= |line| && AmountMatchAt(line, j).Some?;
      MatchHasPair(line, j);
    }
    if i :| 0 <= i && i + 1 < |line| && IsDigit(line[i]) && IsDigit(line[i + 1]) {
      PairMatches(line, i);
    }
  }

  /** A hit starts with a symbol, a whitespace character or two adjacent digits. */
  lemma {:induction false} MatchHasPair(s: string, i: nat)
    requires AmountMatchAt(s, i).Some?
    ensures HasDigitPair(s)
  {
    var p := if i < |s| && IsCurrencySymbol(s[i]) then
               (if i + 1 < |s| && IsSpace(s[i + 1]) then i + 2 else i + 1)
             else if i < |s| && IsSpace(s[i]) then i + 1 else i;
    assert IsDigit(s[p]) && IsDigit(s[p + 1]);
  }

  /** The expression matches at the first of two adjacent digits. */
  lemma {:induction false} PairMatches(s: string, q: nat)
    requires q + 1 < |s| && IsDigit(s[q]) && IsDigit(s[q + 1])
    ensures AmountMatchAt(s, q).Some?
  {
    assert !IsCurrencySymbol(s[q]) && !IsSpace(s[q]);
    assert NumberAt(s, q, "").Some?;
  }

  // ---------------------------------------------------------------------------
  // Scoring and candidates
  // ---------------------------------------------------------------------------

  /** A scored candidate: stripped line, value in cents, symbol group, score. */
  datatype Candidate = Candidate(line: string, cents: nat, symbol: string, score: int)

  const OtherTotalKeywords: seq<string> :=
    ["total", "amount", "paid", "net", "due", "fare", "bill", "charge"]
  const BonusKeywords: seq<string> := ["rupees", "only"]
  const PenaltyKeywords: seq<string> := ["round off", "balance", "tax", "receipt no"]

  /** The score of a hit on a line whose lower-cased text is `lineLower`. */
  function Score(lineLower: string, hasSymbol: bool): (r: int)
    ensures -3 <= r <= 7
    ensures Contains(lineLower, "total amount") ==> r >= 2
    ensures ContainsAny(lineLower, PenaltyKeywords) ==> r <= 4
  {
    (if Contains(lineLower, "total amount") then 5
     else if ContainsAny(lineLower, OtherTotalKeywords) then 3
     else 0)
    + (if ContainsAny(lineLower, BonusKeywords) then 1 else 0)
    + (if hasSymbol then 1 else 0)
    - (if ContainsAny(lineLower, PenaltyKeywords) then 3 else 0)
  }

  const MaxCents: nat := 1_000_000_000_000

  /** `float(number)` in cents. */
  function MatchCents(m: AmountMatch): nat
    requires ValidMatch(m)
  {
    100 * DigitsValue(m.whole) + FractionCents(m.frac)
  }

  predicate ValidCandidate(c: Candidate) {
    c.cents < MaxCents && -3 <= c.score <= 7 && IsSymbolGroup(c.symbol)
  }

  function ToCandidate(line: string, m: AmountMatch): (c: Candidate)
    requires ValidMatch(m)
    ensures ValidCandidate(c)
  {
    Pow10Monotone(|m.whole|, 10);
    assert Pow10(10) == 10_000_000_000;
    Candidate(Strip(line), MatchCents(m), m.symbol, Score(Lower(line), m.symbol != ""))
  }

  /** The candidates of one line, in `findall` order. */
  function LineCandidates(line: string): (cs: seq<Candidate>)
    ensures |cs| == |FindAmounts(line)|
  {
    var ms := FindAmounts(line);
    seq(|ms|, k requires 0 <= k < |ms| => ToCandidate(line, ms[k]))
  }

  /** The candidates of all lines, line after line. Every value is below 10^10 (in
      cents, below 10^12) with at most two decimals, every score lies in [-3, 7], and
      every symbol is one of the four or absent. */
  function CandidatesOf(lines: seq<string>): (cs: seq<Candidate>)
    ensures forall k :: 0 <= k < |cs| ==> ValidCandidate(cs[k])
    ensures cs == [] <==> forall j :: 0 <= j < |lines| ==> FindAmounts(lines[j]) == []
    decreases |lines|
  {
    if |lines| == 0 then []
    else
      var init := lines[..|lines| - 1];
      var cs := CandidatesOf(init) + LineCandidates(lines[|lines| - 1]);
      assert forall j :: 0 <= j < |init| ==> init[j] == lines[j];
      cs
  }

  function Candidates(text: string): seq<Candidate> {
    CandidatesOf(SplitLines(Normalise(text)))
  }

  /** `max(candidates, key=score)`: scanning left to right, a later candidate replaces
      the best so far only with a strictly greater score. */
  function BestIndex(cs: seq<Candidate>): (k: nat)
    requires |cs| > 0
    ensures k < |cs|
    ensures forall j :: 0 <= j < |cs| ==> cs[j].score <= cs[k].score
    ensures forall j :: 0 <= j < k ==> cs[j].score < cs[k].score
    decreases |cs|
  {
    if |cs| == 1 then 0
    else
      var k := BestIndex(cs[..|cs| - 1]);
      if cs[|cs| - 1].score > cs[k].score then |cs| - 1 else k
  }

  /** `f"{symbol}{value}" if symbol else str(value)` */
  function Rendered(c: Candidate): string {
    if c.symbol != "" then c.symbol + FloatText(c.cents) else FloatText(c.cents)
  }

  /** What `extract_amount` returns. */
  function AmountOf(text: string): string {
    var cs := Candidates(text);
    if |cs| == 0 then "" else Rendered(cs[BestIndex(cs)])
  }

  // ---------------------------------------------------------------------------
  // The extraction loop
  // ---------------------------------------------------------------------------

  lemma {:induction false} CandidatesOfSnoc(lines: seq<string>, i: nat)
    requires i < |lines|
    ensures CandidatesOf(lines[..i + 1]) == CandidatesOf(lines[..i]) + LineCandidates(lines[i])
  {
    assert lines[..i + 1][..i] == lines[..i];
  }

  lemma {:induction false} LineCandidatesStep(line: string, j: nat)
    requires j < |FindAmounts(line)|
    ensures var m := FindAmounts(line)[j];
            LineCandidates(line)[..j + 1] == LineCandidates(line)[..j]
              + [Candidate(Strip(line), MatchCents(m), m.symbol, Score(Lower(line), m.symbol != ""))]
  {
  }

  /** The score of one hit, accumulated as the loop body of `extract_amount` does. */
  method LineScore(line: string, hasSymbol: bool) returns (score: int)
    ensures score == Score(Lower(line), hasSymbol)
  {
    score := 0;
    var lineLower := Lower(line);
    if Contains(lineLower, "total amount") {
      score := score + 5;
    } else if ContainsAny(lineLower, OtherTotalKeywords) {
      score := score + 3;
    }
    if ContainsAny(lineLower, BonusKeywords) {
      score := score + 1;
    }
    if hasSymbol {
      score := score + 1;
    }
    if ContainsAny(lineLower, PenaltyKeywords) {
      score := score - 3;
    }
  }

  /** The candidate list built by the two nested loops of `extract_amount`. */
  method CollectCandidates(lines: seq<string>) returns (candidates: seq<Candidate>)
    ensures candidates == CandidatesOf(lines)
  {
    candidates := [];
    for i := 0 to |lines|
      invariant candidates == CandidatesOf(lines[..i])
    {
      var line := lines[i];
      CandidatesOfSnoc(lines, i);
      var matches := FindAmounts(line);
      if |matches| == 0 {
        continue;
      }
      ghost var before := candidates;
      ghost var lineCandidates := LineCandidates(line);
      for j := 0 to |matches|
        invariant candidates == before + lineCandidates[..j]
      {
        var m := matches[j];
        var value := MatchCents(m);
        var score := LineScore(line, m.symbol != "");
        LineCandidatesStep(line, j);
        candidates := candidates + [Candidate(Strip(line), value, m.symbol, score)];
      }
      assert lineCandidates[..|matches|] == lineCandidates;
    }
    assert lines[..|lines|] == lines;
  }

  method ExtractAmount(text: string) returns (r: string)
    ensures r == AmountOf(text)
  {
    var t := ReplaceAll(text, ",", "");
    t := ReplaceAll(t, "INR", "₹");
    t := ReplaceAll(t, "Rs.", "₹");
    var candidates := CollectCandidates(SplitLines(t));
    if |candidates| == 0 {
      return "";
    }
    var best := candidates[BestIndex(candidates)];
    var symbol, value := best.symbol, best.cents;
    r := if symbol != "" then symbol + FloatText(value) else FloatText(value);
  }

  // ---------------------------------------------------------------------------
  // Properties
  // ---------------------------------------------------------------------------

  /** No amount is reported (the empty string, never "0") exactly when the normalised
      text holds no two adjacent digits. */
  lemma {:induction false} AmountEmptyIff(text: string)
    ensures AmountOf(text) == "" <==> !HasDigitPair(Normalise(text))
  {
    var t := Normalise(text);
    var lines := SplitLines(t);
    if HasDigitPair(t) {
      var i :| 0 <= i && i + 1 < |t| && IsDigit(t[i]) && IsDigit(t[i + 1]);
      var j, p := AdjacentInSomeLine(t, i);
      FindAmountsIff(lines[j]);
    } else {
      forall j | 0 <= j < |lines| ensures FindAmounts(lines[j]) == [] {
        FindAmountsIff(lines[j]);
        var a := LineIsSegment(t, j);
        forall p | 0 <= p && p + 1 < |lines[j]| ensures !(IsDigit(lines[j][p]) && IsDigit(lines[j][p + 1])) {
          assert lines[j][p] == t[a + p] && lines[j][p + 1] == t[a + p + 1];
        }
      }
    }
    var cs := Candidates(text);
    if |cs| > 0 {
      assert |Rendered(cs[BestIndex(cs)])| > 0;
    }
  }

  /** The reported amount is the rendering of a candidate of maximal score, and every
      candidate before it in document order scores strictly less. */
  lemma {:induction false} AmountIsFirstBest(text: string)
    ensures var cs := Candidates(text);
            |cs| > 0 ==>
              exists k :: 0 <= k < |cs| && AmountOf(text) == Rendered(cs[k])
                && (forall j :: 0 <= j < |cs| ==> cs[j].score <= cs[k].score)
                && (forall j :: 0 <= j < k ==> cs[j].score < cs[k].score)
  {
    var cs := Candidates(text);
    if |cs| > 0 {
      var k := BestIndex(cs);
      assert AmountOf(text) == Rendered(cs[k]);
    }
  }
}

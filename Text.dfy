/**
 * Character classes and string operations shared by both extraction strategies:
 * ASCII lower-casing, substring search, whitespace stripping, splitting into lines
 * and words, and replacement of every occurrence of a substring.
 */
module Text {

  // ---------------------------------------------------------------------------
  // Character classes (ASCII semantics)
  // ---------------------------------------------------------------------------

  predicate IsDigit(c: char) { '0' <= c <= '9' }

  predicate IsUpper(c: char) { 'A' <= c <= 'Z' }

  predicate IsAlpha(c: char) { 'A' <= c <= 'Z' || 'a' <= c <= 'z' }

  /** The characters of the regular-expression class `\w`. */
  predicate IsWordChar(c: char) { IsAlpha(c) || IsDigit(c) || c == '_' }

  /** The ASCII characters of `\s` and of `str.strip()` / `str.split()`: space, tab,
      line feed, carriage return, vertical tab, form feed, and the four separators
      `\x1c` to `\x1f`. */
  predicate IsSpace(c: char) {
    c == ' ' || c == '\t' || c == '\n' || c == '\r' || c == '\U{000B}' || c == '\U{000C}'
    || '\U{001C}' <= c <= '\U{001F}'
  }

  /** The four currency symbols both strategies recognise. */
  predicate IsCurrencySymbol(c: char) { c == '₹' || c == '$' || c == '€' || c == '£' }

  function LowerChar(c: char): char {
    if 'A' <= c <= 'Z' then (c as int + 32) as char else c
  }

  function Lower(s: string): (r: string)
    ensures |r| == |s|
    ensures forall k :: 0 <= k < |s| ==> r[k] == LowerChar(s[k])
  {
    seq(|s|, k requires 0 <= k < |s| => LowerChar(s[k]))
  }

  /** Length of the longest run of characters satisfying `p` that starts at `i`. */
  function Run(s: string, i: nat, p: char -> bool): (r: nat)
    ensures r == 0 || i + r <= |s|
    ensures forall k :: i <= k < i + r ==> k < |s| && p(s[k])
    ensures i + r < |s| ==> !p(s[i + r])
    decreases |s| - i
  {
    if i < |s| && p(s[i]) then 1 + Run(s, i + 1, p) else 0
  }

  /** A run of `n` characters satisfying `p` and not followed by another is the run. */
  lemma {:induction false} RunExact(s: string, i: nat, n: nat, p: char -> bool)
    requires i + n <= |s| && forall k :: i <= k < i + n ==> p(s[k])
    requires i + n == |s| || !p(s[i + n])
    ensures Run(s, i, p) == n
  {
  }

  // ---------------------------------------------------------------------------
  // Substrings
  // ---------------------------------------------------------------------------

  predicate StartsWith(s: string, pat: string) {
    |pat| <= |s| && s[..|pat|] == pat
  }

  /** `s[d..]` sliced again is a slice of `s`. */
  lemma {:induction false} SliceOfSuffix(s: string, d: nat, a: nat, b: nat)
    requires d <= |s| && a <= b <= |s| - d
    ensures s[d..][a..b] == s[d + a..d + b]
  {
  }

  /** `pat` occurs in `s` at index `i`. */
  predicate OccursAt(s: string, pat: string, i: int) {
    0 <= i && i + |pat| <= |s| && s[i..i + |pat|] == pat
  }

  /** An occurrence in a suffix of `s` is one in `s`, shifted by the suffix's offset. */
  lemma {:induction false} OccursInSuffix(s: string, d: nat, pat: string, j: nat)
    requires d <= |s| && OccursAt(s[d..], pat, j)
    ensures OccursAt(s, pat, d + j)
  {
    SliceOfSuffix(s, d, j, j + |pat|);
  }

  /** Python's `pat in s`. */
  predicate Contains(s: string, pat: string)
    decreases |s|
  {
    StartsWith(s, pat) || (|s| > 0 && Contains(s[1..], pat))
  }

  /** A pattern holding a character that `s` lacks does not occur in `s`. */
  lemma {:induction false} MissingCharNotContained(s: string, pat: string, c: nat)
    requires c < |pat| && forall i :: 0 <= i < |s| ==> s[i] != pat[c]
    ensures !Contains(s, pat)
  {
    ContainsIff(s, pat);
    forall i: int ensures !OccursAt(s, pat, i) {
      if 0 <= i && i + |pat| <= |s| {
        assert s[i..i + |pat|][c] == s[i + c];
      }
    }
  }

  /** Some word of `pats` occurs in `s` (a regular expression `a|b|c` searched in `s`). */
  predicate ContainsAny(s: string, pats: seq<string>) {
    exists k :: 0 <= k < |pats| && Contains(s, pats[k])
  }

  lemma {:induction false} ContainsIff(s: string, pat: string)
    ensures Contains(s, pat) <==> exists i :: OccursAt(s, pat, i)
    decreases |s|
  {
    if StartsWith(s, pat) {
      assert OccursAt(s, pat, 0);
    } else if |s| > 0 {
      ContainsIff(s[1..], pat);
      if i :| OccursAt(s, pat, i) {
        assert s[1..][i - 1..i - 1 + |pat|] == s[i..i + |pat|];
        assert OccursAt(s[1..], pat, i - 1);
      }
      if i :| OccursAt(s[1..], pat, i) {
        assert s[1..][i..i + |pat|] == s[i + 1..i + 1 + |pat|];
        assert OccursAt(s, pat, i + 1);
      }
    } else {
      assert forall i :: !OccursAt(s, pat, i);
    }
  }

  // ---------------------------------------------------------------------------
  // Stripping whitespace
  // ---------------------------------------------------------------------------

  predicate NotSpace(c: char) { !IsSpace(c) }

  /** The position right after the last non-whitespace character before `e` (0 if none). */
  function TextEnd(s: string, e: nat): (r: nat)
    requires e <= |s|
    ensures r <= e
    ensures forall k :: r <= k < e ==> IsSpace(s[k])
    ensures r > 0 ==> !IsSpace(s[r - 1])
    decreases e
  {
    if e == 0 || !IsSpace(s[e - 1]) then e else TextEnd(s, e - 1)
  }

  /** Python's `str.strip()`: leading and trailing whitespace removed. */
  function Strip(s: string): string {
    var a := Run(s, 0, IsSpace);
    var e := TextEnd(s, |s|);
    if e <= a then "" else s[a..e]
  }

  /** What `Strip` returns is the segment of its input at offset `a`, with only
      whitespace around it, and it neither starts nor ends with whitespace. */
  lemma {:induction false} StripShape(s: string) returns (a: nat)
    ensures OccursAt(s, Strip(s), a)
    ensures forall k :: 0 <= k < a ==> IsSpace(s[k])
    ensures forall k :: a + |Strip(s)| <= k < |s| ==> IsSpace(s[k])
    ensures |Strip(s)| > 0 ==> !IsSpace(Strip(s)[0]) && !IsSpace(Strip(s)[|Strip(s)| - 1])
  {
    var a0 := Run(s, 0, IsSpace);
    var e := TextEnd(s, |s|);
    if e <= a0 {
      a := 0;
      assert s[0..0] == "";
    } else {
      a := a0;
      var r := s[a0..e];
      assert r[0] == s[a0] && r[|r| - 1] == s[e - 1];
    }
  }

  /** Only whitespace strips to nothing. */
  lemma {:induction false} StripEmptyIff(s: string)
    ensures Strip(s) == "" <==> forall k :: 0 <= k < |s| ==> IsSpace(s[k])
  {
    var a := StripShape(s);
    if Strip(s) != "" {
      assert !IsSpace(s[a]) by {
        assert s[a] == Strip(s)[0];
      }
    }
  }

  /** A text with no whitespace at either end strips to itself. */
  lemma {:induction false} StripTrimmed(r: string)
    requires |r| > 0 && !IsSpace(r[0]) && !IsSpace(r[|r| - 1])
    ensures Strip(r) == r
  {
    assert Run(r, 0, IsSpace) == 0;
    assert TextEnd(r, |r|) == |r|;
    assert r[0..|r|] == r;
  }

  lemma {:induction false} StripIdempotent(s: string)
    ensures Strip(Strip(s)) == Strip(s)
  {
    var r := Strip(s);
    var _ := StripShape(s);
    if |r| > 0 {
      StripTrimmed(r);
    }
  }

  // ---------------------------------------------------------------------------
  // Lines
  // ---------------------------------------------------------------------------

  predicate NotNewline(c: char) { c != '\n' }

  predicate NoNewline(line: string) {
    forall k :: 0 <= k < |line| ==> line[k] != '\n'
  }

  /** The lines of `s[i..]`. */
  function LinesFrom(s: string, i: nat): (ls: seq<string>)
    requires i <= |s|
    ensures forall j :: 0 <= j < |ls| ==> NoNewline(ls[j])
    decreases |s| - i
  {
    if i == |s| then []
    else
      var n := Run(s, i, NotNewline);
      if i + n == |s| then [s[i..]]
      else [s[i..i + n]] + LinesFrom(s, i + n + 1)
  }

  /**
   * Python's `str.splitlines()` for line breaks written as '\n': the empty string has
   * no lines and a final '\n' does not start an empty last line.
   */
  function SplitLines(s: string): (ls: seq<string>)
    ensures forall j :: 0 <= j < |ls| ==> NoNewline(ls[j])
  {
    LinesFrom(s, 0)
  }

  lemma {:induction false} LineInText(s: string, i: nat, j: nat) returns (a: nat)
    requires i <= |s| && j < |LinesFrom(s, i)|
    ensures OccursAt(s, LinesFrom(s, i)[j], a)
    decreases |s| - i
  {
    var n := Run(s, i, NotNewline);
    if i + n == |s| {
      assert LinesFrom(s, i) == [s[i..]];
      a := i;
    } else {
      var rest := LinesFrom(s, i + n + 1);
      assert LinesFrom(s, i) == [s[i..i + n]] + rest;
      if j == 0 {
        a := i;
      } else {
        assert LinesFrom(s, i)[j] == rest[j - 1];
        a := LineInText(s, i + n + 1, j - 1);
      }
    }
  }

  /** Every line is a segment of the text, at the offset returned. */
  lemma {:induction false} LineIsSegment(s: string, j: nat) returns (a: nat)
    requires j < |SplitLines(s)|
    ensures OccursAt(s, SplitLines(s)[j], a)
  {
    a := LineInText(s, 0, j);
  }

  lemma {:induction false} AdjacentInLinesFrom(s: string, i: nat, q: nat) returns (j: nat, p: nat)
    requires i <= q && q + 1 < |s| && s[q] != '\n' && s[q + 1] != '\n'
    ensures j < |LinesFrom(s, i)| && p + 1 < |LinesFrom(s, i)[j]|
    ensures LinesFrom(s, i)[j][p] == s[q] && LinesFrom(s, i)[j][p + 1] == s[q + 1]
    decreases |s| - i
  {
    var n := Run(s, i, NotNewline);
    if q + 1 < i + n {
      j, p := 0, q - i;
    } else {
      assert !NotNewline(s[i + n]);
      var j', p' := AdjacentInLinesFrom(s, i + n + 1, q);
      j, p := j' + 1, p';
    }
  }

  /** Two adjacent characters of the text that are not line breaks are adjacent in some line. */
  lemma {:induction false} AdjacentInSomeLine(s: string, i: nat) returns (j: nat, p: nat)
    requires i + 1 < |s| && s[i] != '\n' && s[i + 1] != '\n'
    ensures j < |SplitLines(s)| && p + 1 < |SplitLines(s)[j]|
    ensures SplitLines(s)[j][p] == s[i] && SplitLines(s)[j][p + 1] == s[i + 1]
  {
    j, p := AdjacentInLinesFrom(s, 0, i);
  }

  /** The stripped lines of `lines` that satisfy `p`, in order. */
  function Selected(lines: seq<string>, p: string -> bool): (ps: seq<string>)
    ensures |ps| <= |lines|
    ensures forall k :: 0 <= k < |ps| ==> p(ps[k]) && Strip(ps[k]) == ps[k]
    decreases |lines|
  {
    if |lines| == 0 then []
    else
      var clean := Strip(lines[|lines| - 1]);
      assert Strip(clean) == clean by {
        StripIdempotent(lines[|lines| - 1]);
      }
      Selected(lines[..|lines| - 1], p) + (if p(clean) then [clean] else [])
  }

  /** Nothing is selected exactly when no stripped line satisfies `p`. */
  lemma {:induction false} SelectedEmpty(lines: seq<string>, p: string -> bool)
    ensures Selected(lines, p) == [] <==> forall j :: 0 <= j < |lines| ==> !p(Strip(lines[j]))
    decreases |lines|
  {
    if |lines| > 0 {
      var init := lines[..|lines| - 1];
      SelectedEmpty(init, p);
      assert forall j :: 0 <= j < |init| ==> init[j] == lines[j];
    }
  }

  /** The first selected line is the stripped form of the first line that satisfies `p`. */
  lemma {:induction false} SelectedFirst(lines: seq<string>, p: string -> bool) returns (j: nat)
    requires Selected(lines, p) != []
    ensures j < |lines| && Selected(lines, p)[0] == Strip(lines[j]) && p(Strip(lines[j]))
    ensures forall j' :: 0 <= j' < j ==> !p(Strip(lines[j']))
    decreases |lines|
  {
    var init := lines[..|lines| - 1];
    assert forall j :: 0 <= j < |init| ==> init[j] == lines[j];
    if Selected(init, p) != [] {
      j := SelectedFirst(init, p);
    } else {
      SelectedEmpty(init, p);
      j := |lines| - 1;
    }
  }

  // ---------------------------------------------------------------------------
  // Words
  // ---------------------------------------------------------------------------

  /** The words of `s[i..]`: the maximal runs of non-whitespace. */
  function WordsFrom(s: string, i: nat): (ws: seq<string>)
    requires i <= |s|
    ensures forall k :: 0 <= k < |ws| ==> |ws[k]| > 0
    decreases |s| - i
  {
    var j := i + Run(s, i, IsSpace);
    if j >= |s| then []
    else
      var n := Run(s, j, NotSpace);
      assert NotSpace(s[j]);
      [s[j..j + n]] + WordsFrom(s, j + n)
  }

  /** Python's `str.split()` with no argument. */
  function Words(s: string): (ws: seq<string>)
    ensures forall k :: 0 <= k < |ws| ==> |ws[k]| > 0
  {
    WordsFrom(s, 0)
  }

  /** Some word of `s` starts with an upper-case letter. */
  predicate HasCapitalisedWord(s: string) {
    AnyCapitalised(Words(s))
  }

  predicate AnyCapitalised(ws: seq<string>) {
    exists k :: 0 <= k < |ws| && |ws[k]| > 0 && IsUpper(ws[k][0])
  }

  // ---------------------------------------------------------------------------
  // Replacement
  // ---------------------------------------------------------------------------

  /** Python's `s.replace(pat, rep)`: every non-overlapping occurrence, left to right. */
  function ReplaceAll(s: string, pat: string, rep: string): string
    requires |pat| > 0
    decreases |s|
  {
    if |s| == 0 then []
    else if StartsWith(s, pat) then rep + ReplaceAll(s[|pat|..], pat, rep)
    else [s[0]] + ReplaceAll(s[1..], pat, rep)
  }

  /** A text without the first character of the pattern is left as it is. */
  lemma {:induction false} ReplaceFree(s: string, pat: string, rep: string)
    requires |pat| > 0 && pat[0] !in s
    ensures ReplaceAll(s, pat, rep) == s
    decreases |s|
  {
    if |s| > 0 {
      assert !StartsWith(s, pat);
      ReplaceFree(s[1..], pat, rep);
    }
  }

  /** A text that starts with the pattern has it replaced first. */
  lemma {:induction false} ReplaceAtStart(pat: string, rep: string, b: string)
    requires |pat| > 0
    ensures ReplaceAll(pat + b, pat, rep) == rep + ReplaceAll(b, pat, rep)
  {
    assert (pat + b)[..|pat|] == pat;
    assert (pat + b)[|pat|..] == b;
  }

  /** Such a text in front of another is copied, and the replacement goes on after it. */
  lemma {:induction false} ReplaceAfterFree(a: string, b: string, pat: string, rep: string)
    requires |pat| > 0 && pat[0] !in a
    ensures ReplaceAll(a + b, pat, rep) == a + ReplaceAll(b, pat, rep)
    decreases |a|
  {
    if |a| == 0 {
      assert a + b == b;
    } else {
      assert (a + b)[0] == a[0];
      assert !StartsWith(a + b, pat);
      assert (a + b)[1..] == a[1..] + b;
      ReplaceAfterFree(a[1..], b, pat, rep);
      assert [a[0]] + (a[1..] + ReplaceAll(b, pat, rep)) == a + ReplaceAll(b, pat, rep);
    }
  }

  /** Where the text starts with the pattern, the replaced text starts with `rep`. */
  lemma {:induction false} ReplacedHead(t: string, pat: string, rep: string)
    requires |pat| > 0
    ensures StartsWith(t, pat) ==> forall k :: 0 <= k < |rep| ==> ReplaceAll(t, pat, rep)[k] == rep[k]
  {
  }

  /** No character of `rep` occurs in `w`. */
  predicate Disjoint(w: string, rep: string) {
    forall k :: 0 <= k < |w| ==> w[k] !in rep
  }

  /** A prefix of the replaced text made only of characters foreign to `rep` was
      already a prefix of the original text. */
  lemma {:induction false} PrefixFromSource(t: string, pat: string, rep: string, w: string)
    requires |pat| > 0 && |rep| > 0 && Disjoint(w, rep)
    requires StartsWith(ReplaceAll(t, pat, rep), w)
    ensures StartsWith(t, w)
    decreases |t|
  {
    if |w| > 0 && |t| > 0 {
      var r := ReplaceAll(t, pat, rep);
      ReplacedHead(t, pat, rep);
      assert w[0] == r[0];
      if !StartsWith(t, pat) {
        var r' := ReplaceAll(t[1..], pat, rep);
        assert r == [t[0]] + r';
        assert StartsWith(r', w[1..]);
        assert Disjoint(w[1..], rep);
        PrefixFromSource(t[1..], pat, rep, w[1..]);
        assert t == [t[0]] + t[1..];
        assert t[..|w|] == [t[0]] + t[1..][..|w| - 1];
      }
    }
  }

  /** After replacement, `pat` no longer occurs, when `rep` shares no character with it. */
  lemma {:induction false} ReplacedAway(t: string, pat: string, rep: string, i: int)
    requires |pat| > 0 && |rep| > 0 && Disjoint(pat, rep)
    ensures !OccursAt(ReplaceAll(t, pat, rep), pat, i)
    decreases |t|
  {
    if |t| > 0 && OccursAt(ReplaceAll(t, pat, rep), pat, i) {
      var r := ReplaceAll(t, pat, rep);
      if StartsWith(t, pat) {
        var r' := ReplaceAll(t[|pat|..], pat, rep);
        assert r == rep + r';
        ReplacedHead(t, pat, rep);
        assert r[i] == pat[0];
        if i >= |rep| {
          assert r'[i - |rep|..i - |rep| + |pat|] == r[i..i + |pat|];
          ReplacedAway(t[|pat|..], pat, rep, i - |rep|);
        }
      } else {
        var r' := ReplaceAll(t[1..], pat, rep);
        assert r == [t[0]] + r';
        if i == 0 {
          PrefixFromSource(t, pat, rep, pat);
        } else {
          assert r'[i - 1..i - 1 + |pat|] == r[i..i + |pat|];
          ReplacedAway(t[1..], pat, rep, i - 1);
        }
      }
    }
  }

  /** Replacement creates no new occurrence of a word foreign to `rep`: an occurrence
      in the replaced text is one of the original text, at the offset returned. */
  lemma {:induction false} NoNewOccurrence(t: string, pat: string, rep: string, w: string, i: int)
    returns (j: nat)
    requires |pat| > 0 && |rep| > 0 && |w| > 0 && Disjoint(w, rep)
    requires OccursAt(ReplaceAll(t, pat, rep), w, i)
    ensures OccursAt(t, w, j)
    decreases |t|
  {
    var r := ReplaceAll(t, pat, rep);
    if StartsWith(t, pat) {
      var d := |pat|;
      var r' := ReplaceAll(t[d..], pat, rep);
      assert r == rep + r';
      ReplacedHead(t, pat, rep);
      assert r[i] == w[0];
      assert i >= |rep|;
      assert r'[i - |rep|..i - |rep| + |w|] == r[i..i + |w|];
      var j' := NoNewOccurrence(t[d..], pat, rep, w, i - |rep|);
      OccursInSuffix(t, d, w, j');
      j := d + j';
    } else {
      var r' := ReplaceAll(t[1..], pat, rep);
      assert r == [t[0]] + r';
      if i == 0 {
        PrefixFromSource(t, pat, rep, w);
        j := 0;
      } else {
        assert r'[i - 1..i - 1 + |w|] == r[i..i + |w|];
        var j' := NoNewOccurrence(t[1..], pat, rep, w, i - 1);
        OccursInSuffix(t, 1, w, j');
        j := 1 + j';
      }
    }
  }

  /** Replacing a one-character pattern by nothing removes that character. */
  lemma {:induction false} CharRemoved(t: string, c: char)
    ensures c !in ReplaceAll(t, [c], "")
    decreases |t|
  {
    if |t| > 0 {
      CharRemoved(t[1..], c);
    }
  }
}

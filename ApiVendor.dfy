/**
 * API strategy, vendor extraction (`extract_vendor` in ocr_parser.py).
 *
 * The stripped text is split into lines, blank lines are dropped and the others
 * stripped; the vendor is the first of the first six that holds a letter and does not
 * mention "total" or "amount" in any letter case, or "Unknown Vendor".
 */
module ApiVendor {
  import opened Wrappers
  import opened Text

  const LineLimit: nat := 6
  const UnknownVendor: string := "Unknown Vendor"

  predicate NonBlank(line: string) { line != "" }

  /** `[line.strip() for line in text.strip().splitlines() if line.strip()]` */
  function NonBlankLines(text: string): (ls: seq<string>)
    ensures forall k :: 0 <= k < |ls| ==> ls[k] != "" && Strip(ls[k]) == ls[k]
  {
    Selected(SplitLines(Strip(text)), NonBlank)
  }

  predicate HasLetter(line: string) {
    exists k :: 0 <= k < |line| && IsAlpha(line[k])
  }

  /** `re.search(r'(total|amount)', line, re.I)`: ignoring letter case is comparing
      the lower-cased line with the lower-case words. */
  predicate MentionsTotal(line: string) {
    Contains(Lower(line), "total") || Contains(Lower(line), "amount")
  }

  predicate VendorLine(line: string) {
    HasLetter(line) && !MentionsTotal(line)
  }

  /** The first line from index `i` on that may name the vendor. */
  function FirstVendorLine(lines: seq<string>, i: nat): Option<string>
    requires i <= |lines|
    decreases |lines| - i
  {
    if i == |lines| then None
    else if VendorLine(lines[i]) then Some(lines[i])
    else FirstVendorLine(lines, i + 1)
  }

  function Head(lines: seq<string>): seq<string> {
    if |lines| <= LineLimit then lines else lines[..LineLimit]
  }

  /** What `extract_vendor` returns. */
  function VendorOf(text: string): string {
    FirstVendorLine(Head(NonBlankLines(text)), 0).GetOr(UnknownVendor)
  }

  method ExtractVendor(text: string) returns (r: string)
    ensures r == VendorOf(text)
  {
    var lines := NonBlankLines(text);
    var head := Head(lines);
    for i := 0 to |head|
      invariant FirstVendorLine(head, 0) == FirstVendorLine(head, i)
    {
      var line := head[i];
      if HasLetter(line) && !MentionsTotal(line) {
        return Strip(line);
      }
    }
    return UnknownVendor;
  }

  // ---------------------------------------------------------------------------
  // Properties
  // ---------------------------------------------------------------------------

  lemma {:induction false} FirstVendorLineSpec(lines: seq<string>, i: nat) returns (j: nat)
    requires i <= |lines|
    ensures i <= j <= |lines|
    ensures forall j' :: i <= j' < j ==> !VendorLine(lines[j'])
    ensures j == |lines| ==> FirstVendorLine(lines, i) == None
    ensures j < |lines| ==> VendorLine(lines[j]) && FirstVendorLine(lines, i) == Some(lines[j])
    decreases |lines| - i
  {
    if i == |lines| || VendorLine(lines[i]) {
      j := i;
    } else {
      j := FirstVendorLineSpec(lines, i + 1);
    }
  }

  /** The vendor is the first of the first six non-blank stripped lines that holds a
      letter and mentions neither "total" nor "amount"; `j` is that line, or the number
      of lines looked at when there is none and the vendor is "Unknown Vendor". */
  lemma {:induction false} VendorIsFirstLine(text: string) returns (j: nat)
    ensures var head := Head(NonBlankLines(text));
            |head| <= LineLimit && j <= |head|
            && (forall j' :: 0 <= j' < j ==> !VendorLine(head[j']))
            && (j == |head| ==> VendorOf(text) == UnknownVendor)
            && (j < |head| ==> VendorOf(text) == head[j])
    ensures VendorOf(text) != UnknownVendor ==>
              VendorOf(text) != "" && Strip(VendorOf(text)) == VendorOf(text)
              && HasLetter(VendorOf(text)) && !MentionsTotal(VendorOf(text))
  {
    var head := Head(NonBlankLines(text));
    assert forall k :: 0 <= k < |head| ==> head[k] == NonBlankLines(text)[k];
    j := FirstVendorLineSpec(head, 0);
  }

  /** The lines looked at are the non-blank lines of the text, stripped: there are none
      exactly when the text is blank. */
  lemma {:induction false} NoLinesIffBlank(text: string)
    ensures NonBlankLines(text) == [] <==> forall j :: 0 <= j < |SplitLines(Strip(text))| ==>
              Strip(SplitLines(Strip(text))[j]) == ""
  {
    SelectedEmpty(SplitLines(Strip(text)), NonBlank);
  }
}

/**
 * Dashboard strategy, vendor extraction (`extract_vendor` in utils.py).
 *
 * A vendor already stored in the database (the list `topVendors`, most frequent first)
 * wins when its name occurs in the text, ignoring case. Otherwise the first of the
 * first ten lines that looks like a name is taken: 3 to 60 characters once stripped,
 * not starting with a tax, GST, invoice, bill, date or receipt label, and holding a
 * word that starts with a capital letter. Failing both, the vendor is "Unknown".
 */
module DashboardVendor {
  import opened Wrappers
  import opened Text

  const LabelPrefixes: seq<string> := ["tax", "gst", "invoice", "bill", "date", "receipt"]
  const LineLimit: nat := 10
  const Unknown: string := "Unknown"

  function Min(a: nat, b: nat): nat { if a < b then a else b }

  predicate StartsWithAny(s: string, prefixes: seq<string>) {
    exists k :: 0 <= k < |prefixes| && StartsWith(s, prefixes[k])
  }

  /** The first stored vendor from index `i` on whose lower-cased name occurs in the
      lower-cased text. */
  function KnownVendorFrom(topVendors: seq<string>, textLower: string, i: nat): Option<string>
    requires i <= |topVendors|
    decreases |topVendors| - i
  {
    if i == |topVendors| then None
    else if Contains(textLower, Lower(topVendors[i])) then Some(topVendors[i])
    else KnownVendorFrom(topVendors, textLower, i + 1)
  }

  /** A stripped line that may be a vendor name. */
  predicate PlausibleName(clean: string) {
    3 <= |clean| <= 60 && !StartsWithAny(Lower(clean), LabelPrefixes) && HasCapitalisedWord(clean)
  }

  /** The list `potential` of the source: the plausible names among `lines`, stripped,
      in order. */
  function PotentialVendors(lines: seq<string>): (ps: seq<string>)
    ensures |ps| <= |lines|
    ensures forall k :: 0 <= k < |ps| ==> PlausibleName(ps[k])
  {
    Selected(lines, PlausibleName)
  }

  /** What `extract_vendor` returns. */
  function VendorOf(topVendors: seq<string>, text: string): string {
    var known := KnownVendorFrom(topVendors, Lower(text), 0);
    if known.Some? then known.value
    else
      var lines := SplitLines(Strip(text));
      LineVendor(lines[..Min(|lines|, LineLimit)])
  }

  /** The vendor taken from the lines when no stored vendor occurs. */
  function LineVendor(head: seq<string>): string {
    var ps := PotentialVendors(head);
    if |ps| > 0 then ps[0] else Unknown
  }

  method ExtractVendor(text: string, topVendors: seq<string>) returns (r: string)
    ensures r == VendorOf(topVendors, text)
  {
    var lines := SplitLines(Strip(text));
    var textLower := Lower(text);
    for k := 0 to |topVendors|
      invariant KnownVendorFrom(topVendors, textLower, 0) == KnownVendorFrom(topVendors, textLower, k)
    {
      if Contains(textLower, Lower(topVendors[k])) {
        return topVendors[k];
      }
    }
    var head := lines[..Min(|lines|, LineLimit)];
    var potential := CollectPotential(head);
    r := if |potential| > 0 then potential[0] else Unknown;
  }

  /** The loop that builds `potential` over the first lines. */
  method CollectPotential(head: seq<string>) returns (potential: seq<string>)
    ensures potential == PotentialVendors(head)
  {
    potential := [];
    for i := 0 to |head|
      invariant potential == PotentialVendors(head[..i])
    {
      assert head[..i + 1][..i] == head[..i];
      var clean := Strip(head[i]);
      assert PotentialVendors(head[..i + 1])
             == PotentialVendors(head[..i]) + (if PlausibleName(clean) then [clean] else []);
      if |clean| < 3 || |clean| > 60 {
        continue;
      }
      if StartsWithAny(Lower(clean), LabelPrefixes) {
        continue;
      }
      if HasCapitalisedWord(clean) {
        potential := potential + [clean];
      }
    }
    assert head[..|head|] == head;
  }

  // ---------------------------------------------------------------------------
  // Properties
  // ---------------------------------------------------------------------------

  /** The vendor read from `head` is its first plausible line, stripped, or "Unknown"
      when none is plausible: `j` is that line, or `|head|` when there is none. */
  lemma {:induction false} LineVendorFirst(head: seq<string>) returns (j: nat)
    ensures j <= |head| && forall j' :: 0 <= j' < j ==> !PlausibleName(Strip(head[j']))
    ensures j == |head| ==> LineVendor(head) == Unknown
    ensures j < |head| ==> LineVendor(head) == Strip(head[j]) && PlausibleName(LineVendor(head))
    ensures Strip(LineVendor(head)) == LineVendor(head)
  {
    SelectedEmpty(head, PlausibleName);
    if PotentialVendors(head) != [] {
      j := SelectedFirst(head, PlausibleName);
      StripIdempotent(head[j]);
    } else {
      j := |head|;
      StripTrimmed(Unknown);
    }
  }

  /** When no stored vendor occurs, the vendor comes from the first of the first ten
      lines that is a plausible name, stripped, and is "Unknown" when none of them is:
      `j` is that line, or the line limit when there is none. */
  lemma {:induction false} VendorFromLines(topVendors: seq<string>, text: string) returns (j: nat)
    requires forall k :: 0 <= k < |topVendors| ==> !Contains(Lower(text), Lower(topVendors[k]))
    ensures var lines := SplitLines(Strip(text));
            j <= Min(|lines|, LineLimit)
            && (forall j' :: 0 <= j' < j ==> !PlausibleName(Strip(lines[j'])))
            && (j == Min(|lines|, LineLimit) ==> VendorOf(topVendors, text) == Unknown)
            && (j < Min(|lines|, LineLimit) ==> VendorOf(topVendors, text) == Strip(lines[j]))
    ensures VendorOf(topVendors, text) != Unknown ==> PlausibleName(VendorOf(topVendors, text))
    ensures Strip(VendorOf(topVendors, text)) == VendorOf(topVendors, text)
  {
    var lines := SplitLines(Strip(text));
    var head := lines[..Min(|lines|, LineLimit)];
    var k := KnownVendorFromSpec(topVendors, Lower(text), 0);
    assert forall k :: 0 <= k < |head| ==> head[k] == lines[k];
    assert VendorOf(topVendors, text) == LineVendor(head);
    j := LineVendorFirst(head);
  }

  lemma {:induction false} KnownVendorFromSpec(topVendors: seq<string>, textLower: string, i: nat)
    returns (j: nat)
    requires i <= |topVendors|
    ensures i <= j <= |topVendors|
    ensures forall j' :: i <= j' < j ==> !Contains(textLower, Lower(topVendors[j']))
    ensures j == |topVendors| ==> KnownVendorFrom(topVendors, textLower, i) == None
    ensures j < |topVendors| ==> (Contains(textLower, Lower(topVendors[j]))
              && KnownVendorFrom(topVendors, textLower, i) == Some(topVendors[j]))
    decreases |topVendors| - i
  {
    if i == |topVendors| || Contains(textLower, Lower(topVendors[i])) {
      j := i;
    } else {
      j := KnownVendorFromSpec(topVendors, textLower, i + 1);
    }
  }

  /** A stored vendor that occurs in the text is reported verbatim, ahead of any line,
      and the earliest such vendor of the list wins. */
  lemma {:induction false} KnownVendorWins(topVendors: seq<string>, text: string, k: nat)
    requires k < |topVendors| && Contains(Lower(text), Lower(topVendors[k]))
    requires forall j :: 0 <= j < k ==> !Contains(Lower(text), Lower(topVendors[j]))
    ensures VendorOf(topVendors, text) == topVendors[k]
  {
    var j := KnownVendorFromSpec(topVendors, Lower(text), 0);
  }
}

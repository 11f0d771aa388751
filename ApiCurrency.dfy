/**
 * API strategy, currency detection (`extract_currency` in ocr_parser.py): the first
 * of the symbols ₹ $ € £ in the text, or "₹" when there is none.
 */
module ApiCurrency {
  import opened Wrappers
  import opened Text
  import opened Search

  const DefaultCurrency: string := "₹"

  /** `[₹$€£]` at `i`. */
  function SymbolAt(s: string, i: nat): (r: Option<string>)
    ensures r.Some? <==> i < |s| && IsCurrencySymbol(s[i])
    ensures r.Some? ==> r.value == [s[i]]
  {
    if i < |s| && IsCurrencySymbol(s[i]) then Some([s[i]]) else None
  }

  /** What `extract_currency` returns. */
  function CurrencyOf(text: string): string {
    FirstMatch(text, 0, SymbolAt).GetOr(DefaultCurrency)
  }

  /** The currency is the symbol at the first position holding one, or "₹" when no
      position does; `j` is that position, or the length of the text. */
  lemma {:induction false} CurrencyIsFirstSymbol(text: string) returns (j: nat)
    ensures j <= |text|
    ensures forall k :: 0 <= k < j ==> !IsCurrencySymbol(text[k])
    ensures j == |text| ==> CurrencyOf(text) == DefaultCurrency
    ensures j < |text| ==> IsCurrencySymbol(text[j]) && CurrencyOf(text) == [text[j]]
  {
    FirstMatchSpec(text, 0, SymbolAt);
    if FirstMatch(text, 0, SymbolAt).Some? {
      j :| 0 <= j <= |text| && SymbolAt(text, j) == FirstMatch(text, 0, SymbolAt)
           && forall k :: 0 <= k < j ==> SymbolAt(text, k).None?;
    } else {
      j := |text|;
    }
    forall k | 0 <= k < j ensures !IsCurrencySymbol(text[k]) {
      assert SymbolAt(text, k).None?;
    }
  }
}

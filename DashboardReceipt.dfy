/**
 * Dashboard strategy, record assembly (`process_file` in utils.py).
 *
 * The OCR text is a parameter; text that is only whitespace gives no record. The
 * amount string is split back into its currency symbol and its value by the
 * expression `([₹$€£])?(\d+(?:\.\d{1,2})?)` anchored at the start.
 */
module DashboardReceipt {
  import opened Wrappers
  import opened Text
  import opened Decimal
  import opened Calendar
  import opened DashboardAmount
  import opened DashboardDate
  import opened DashboardVendor
  import opened DashboardCategory

  /** The dictionary `process_file` returns. The amount is in cents, `None` when the
      amount string does not start with a number. */
  datatype Record = Record(filename: string, vendor: string, date: string,
                           amount: Option<nat>, currency: string, category: string)

  /**
   * `re.match(r"([₹$€£])?(\d+(?:\.\d{1,2})?)", s)`: the currency group ("" when it did
   * not take part) and `float` of the number group, in cents; ("", None) when there
   * is no match. The symbol is taken when present; backing off cannot help, because a
   * symbol cannot start the digits.
   */
  function SplitAmount(s: string): (r: (string, Option<nat>))
    ensures r.0 == "" || (|r.0| == 1 && IsCurrencySymbol(r.0[0]))
    ensures r.1.None? ==> r.0 == ""
  {
    var p := if |s| > 0 && IsCurrencySymbol(s[0]) then 1 else 0;
    var n := Run(s, p, IsDigit);
    if n == 0 then ("", None)
    else
      var q := p + n;
      var f := if q + 1 < |s| && s[q] == '.' && IsDigit(s[q + 1])
               then (if q + 2 < |s| && IsDigit(s[q + 2]) then 2 else 1)
               else 0;
      var frac := if f == 0 then "" else s[q + 1..q + 1 + f];
      (s[..p], Some(100 * DigitsValue(s[p..q]) + FractionCents(frac)))
  }

  /** What `process_file` returns for the text read from the file. */
  function ReceiptOf(rawText: string, filename: string, topVendors: seq<string>,
                     parse: string -> Option<Date>, nowYear: nat,
                     rules: Option<seq<Rule>>): Option<Record>
  {
    if Strip(rawText) == "" then None
    else
      var split := SplitAmount(AmountOf(rawText));
      Some(Record(filename, VendorOf(topVendors, rawText), DateText(DateOf(parse, nowYear, rawText)),
                  split.1, split.0, CategoryOf(rules, rawText)))
  }

  method ProcessFile(rawText: string, filename: string, topVendors: seq<string>,
                     parse: string -> Option<Date>, nowYear: nat,
                     rules: Option<seq<Rule>>) returns (r: Option<Record>)
    ensures r == ReceiptOf(rawText, filename, topVendors, parse, nowYear, rules)
  {
    if Strip(rawText) == "" {
      return None;
    }
    var vendor := ExtractVendor(rawText, topVendors);
    var amountStr := ExtractAmount(rawText);
    var date := ExtractDate(parse, nowYear, rawText);
    var category := ClassifyCategory(rules, rawText);
    var currency := "";
    var amountVal: Option<nat> := None;
    var split := SplitAmount(amountStr);
    if split.1.Some? {
      currency := split.0;
      amountVal := split.1;
    }
    return Some(Record(filename, vendor, date, amountVal, currency, category));
  }

  // ---------------------------------------------------------------------------
  // Properties
  // ---------------------------------------------------------------------------

  /** The split of a text made of an optional symbol (the first `p` characters),
      digits up to `q`, a point and one or two digits. */
  lemma {:induction false} SplitShape(s: string, p: nat, q: nat)
    requires p <= 1 && p < q && q + 2 <= |s| <= q + 3
    requires p == 1 ==> IsCurrencySymbol(s[0])
    requires forall k :: p <= k < q ==> IsDigit(s[k])
    requires s[q] == '.' && forall k :: q < k < |s| ==> IsDigit(s[k])
    ensures SplitAmount(s) == (s[..p], Some(100 * DigitsValue(s[p..q]) + FractionCents(s[q + 1..])))
  {
    assert p == 0 ==> !IsCurrencySymbol(s[0]);
    RunExact(s, p, q - p, IsDigit);
  }

  /** The split of a symbol group, digits, a point and one or two digits. */
  lemma {:induction false} SplitParts(symbol: string, w: string, f: string)
    requires IsSymbolGroup(symbol)
    requires |w| > 0 && AllDigits(w) && 1 <= |f| <= 2 && AllDigits(f)
    ensures SplitAmount(symbol + w + "." + f) == (symbol, Some(100 * DigitsValue(w) + FractionCents(f)))
  {
    var s := symbol + w + "." + f;
    var p := |symbol|;
    var q := p + |w|;
    assert s[..p] == symbol;
    assert s[p..q] == w;
    assert s[q + 1..] == f;
    assert s[q] == '.';
    assert forall k :: p <= k < q ==> IsDigit(s[k]) by {
      forall k | p <= k < q ensures IsDigit(s[k]) {
        assert s[k] == s[p..q][k - p];
      }
    }
    assert forall k :: q < k < |s| ==> IsDigit(s[k]) by {
      forall k | q < k < |s| ensures IsDigit(s[k]) {
        assert s[k] == s[q + 1..][k - q - 1];
      }
    }
    SplitShape(s, p, q);
  }

  /** The split reads back the symbol and the value of a rendered amount. */
  lemma {:induction false} SplitRendered(symbol: string, cents: nat)
    requires IsSymbolGroup(symbol)
    ensures SplitAmount(symbol + FloatText(cents)) == (symbol, Some(cents))
  {
    var w, f := FloatTextParts(cents);
    Regroup(symbol, w, f);
    SplitParts(symbol, w, f);
  }

  /** Regrouping the rendered text; kept as a lemma so that `SplitRendered` sees only this one fact. */
  lemma {:induction false} Regroup(symbol: string, w: string, f: string)
    ensures symbol + (w + "." + f) == symbol + w + "." + f
  {
  }

  /** The empty amount string gives no currency and no value. */
  lemma {:induction false} SplitEmpty()
    ensures SplitAmount("") == ("", None)
  {
  }

  /** No record comes back exactly when the text is only whitespace. */
  lemma {:induction false} NoRecordIff(rawText: string, filename: string, topVendors: seq<string>,
                    parse: string -> Option<Date>, nowYear: nat, rules: Option<seq<Rule>>)
    ensures ReceiptOf(rawText, filename, topVendors, parse, nowYear, rules).None?
            <==> forall k :: 0 <= k < |rawText| ==> IsSpace(rawText[k])
  {
    StripEmptyIff(rawText);
  }

  /** The currency and the value of the record are the symbol and the value of the
      candidate `extract_amount` chose; with no candidate they are "" and `None`. */
  lemma {:induction false} RecordAmountIsBest(rawText: string, filename: string, topVendors: seq<string>,
                           parse: string -> Option<Date>, nowYear: nat, rules: Option<seq<Rule>>)
    requires Strip(rawText) != ""
    ensures var r := ReceiptOf(rawText, filename, topVendors, parse, nowYear, rules).value;
            var cs := Candidates(rawText);
            (cs == [] ==> r.amount == None && r.currency == "")
            && (cs != [] ==> r.amount == Some(cs[BestIndex(cs)].cents)
                             && r.currency == cs[BestIndex(cs)].symbol)
  {
    var cs := Candidates(rawText);
    SplitEmpty();
    if cs != [] {
      var c := cs[BestIndex(cs)];
      SplitRendered(c.symbol, c.cents);
      assert Rendered(c) == c.symbol + FloatText(c.cents);
    }
  }
}

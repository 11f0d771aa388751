/**
 * API strategy, a worked receipt: the text
 *   BESCOM
 *   Bill Date: 01-04-2024
 *   Total Amount: ₹450.00
 * is read as vendor "BESCOM", amount 450.00, date 2024-04-01, currency "₹" and
 * category "Electricity", whatever the current date.
 */
module ApiExample {
  import opened Wrappers
  import opened Text
  import opened Search
  import opened Decimal
  import opened Calendar
  import ApiVendor
  import ApiAmount
  import ApiDate
  import ApiCurrency
  import ApiReceipt

  const Line1: string := "BESCOM"
  const Line2: string := "Bill Date: 01-04-2024"
  const Line3: string := "Total Amount: ₹450.00"
  const Bill: string := Line1 + "\n" + Line2 + "\n" + Line3

  /** Where each character of the text comes from. */
  lemma {:induction false} BillChars()
    ensures |Bill| == 50 && Bill[6] == '\n' && Bill[28] == '\n'
    ensures forall k :: 0 <= k < 6 ==> Bill[k] == Line1[k]
    ensures forall k :: 7 <= k < 28 ==> Bill[k] == Line2[k - 7]
    ensures forall k :: 29 <= k < 50 ==> Bill[k] == Line3[k - 29]
  {
  }

  /** The whole receipt. */
  lemma {:induction false} BillReceipt(now: Date)
    ensures ApiReceipt.ReceiptOf(Bill, now)
            == Success(ApiReceipt.Receipt("BESCOM", 45000, Date(2024, 4, 1), "Electricity", "₹"))
  {
    BillVendor();
    BillAmount();
    BillDate(now);
    BillCurrency();
    BescomCategory();
  }

  // ---------------------------------------------------------------------------
  // Vendor: the first line
  // ---------------------------------------------------------------------------

  lemma {:induction false} BillVendor()
    ensures ApiVendor.VendorOf(Bill) == "BESCOM"
  {
    BillChars();
    StripTrimmed(Bill);
    var lines := SplitLines(Bill);
    BillFirstLine();
    StripTrimmed("BESCOM");
    SelectedEmpty(lines, ApiVendor.NonBlank);
    var j := SelectedFirst(lines, ApiVendor.NonBlank);
    assert j == 0;
    var head := ApiVendor.Head(ApiVendor.NonBlankLines(Bill));
    assert head[0] == "BESCOM";
    BescomIsVendorLine();
  }

  lemma {:induction false} BillFirstLine()
    ensures |SplitLines(Bill)| > 0 && SplitLines(Bill)[0] == "BESCOM"
  {
    BillChars();
    RunExact(Bill, 0, 6, NotNewline);
    assert Bill[0..6] == "BESCOM";
  }

  lemma {:induction false} BescomIsVendorLine()
    ensures ApiVendor.VendorLine("BESCOM")
  {
    assert Lower("BESCOM") == "bescom";
    MissingCharNotContained("bescom", "total", 0);
    MissingCharNotContained("bescom", "amount", 0);
    assert IsAlpha("BESCOM"[0]);
  }

  // ---------------------------------------------------------------------------
  // Amount: "Total Amount" on the third line, at position 29
  // ---------------------------------------------------------------------------

  lemma {:induction false} BillAmount()
    ensures ApiAmount.AmountOf(Bill) == Success(45000)
  {
    forall k | 0 <= k < 29 ensures ApiAmount.LabelledAt(Bill, k).None? {
      BillNoLabel(k);
    }
    BillLabelHit();
    ApiAmount.LabelledWins(Bill, 29);
    BillCents();
  }

  lemma {:induction false} BillNoLabel(k: nat)
    requires k < 29
    ensures ApiAmount.LabelledAt(Bill, k).None?
  {
    if k == 13 {
      BillNoLabelAte();
    } else if k == 14 {
      BillNoLabelTe();
    } else {
      BillChars();
      ApiAmount.NoLabelAtChar(Bill, k);
    }
  }

  /** The letters of "ate" in "Bill Date:". */
  lemma {:induction false} BillDateChars()
    ensures |Bill| == 50 && Bill[13] == 'a' && Bill[14] == 't' && Bill[15] == 'e'
  {
    BillChars();
    assert Line2[6] == 'a' && Line2[7] == 't' && Line2[8] == 'e';
    assert Bill[13] == Line2[6] && Bill[14] == Line2[7] && Bill[15] == Line2[8];
  }

  /** "ate: ..." against "amount paid", the first letter matching only the first. */
  lemma {:induction false} BillNoLabelAte()
    ensures ApiAmount.LabelledAt(Bill, 13).None?
  {
    BillDateChars();
    ApiAmount.LabelMismatch(Bill, 13, ApiAmount.Labels[0], 0);
    ApiAmount.LabelMismatch(Bill, 13, ApiAmount.Labels[1], 0);
    ApiAmount.LabelMismatch(Bill, 13, ApiAmount.Labels[2], 1);
    ApiAmount.LabelMismatch(Bill, 13, ApiAmount.Labels[3], 0);
  }

  /** "te: ..." against "total amount" and "total". */
  lemma {:induction false} BillNoLabelTe()
    ensures ApiAmount.LabelledAt(Bill, 14).None?
  {
    BillDateChars();
    ApiAmount.LabelMismatch(Bill, 14, ApiAmount.Labels[0], 1);
    ApiAmount.LabelMismatch(Bill, 14, ApiAmount.Labels[1], 0);
    ApiAmount.LabelMismatch(Bill, 14, ApiAmount.Labels[2], 0);
    ApiAmount.LabelMismatch(Bill, 14, ApiAmount.Labels[3], 1);
  }

  lemma {:induction false} BillLabelHit()
    ensures ApiAmount.LabelledAt(Bill, 29) == Some(ApiAmount.NumberMatch("450", true, "00", 50))
  {
    BillChars();
    assert ApiAmount.LabelAt(Bill, 29, ApiAmount.Labels[0]);
    BillTail();
    BillNumber();
  }

  lemma {:induction false} BillTail()
    ensures ApiAmount.TailAt(Bill, 41) == Some(44)
  {
    BillTailChars();
    ColonSpaceSymbolTail(Bill, 41);
  }

  /** A colon, one space and a symbol right before a digit: the tail ends at the digit. */
  lemma {:induction false} ColonSpaceSymbolTail(s: string, p: nat)
    requires p + 3 < |s| && s[p] == ':' && s[p + 1] == ' ' && s[p + 2] == '₹'
    requires IsDigit(s[p + 3])
    ensures ApiAmount.TailAt(s, p) == Some(p + 3)
  {
    RunExact(s, p, 0, IsSpace);
    RunExact(s, p + 1, 1, IsSpace);
    RunExact(s, p + 3, 0, IsSpace);
  }

  lemma {:induction false} BillTailChars()
    ensures |Bill| == 50 && Bill[41] == ':' && Bill[42] == ' ' && Bill[43] == '₹' && Bill[44] == '4'
  {
    BillChars();
    assert Line3[12] == ':' && Line3[13] == ' ' && Line3[14] == '₹' && Line3[15] == '4';
    assert Bill[41] == Line3[12] && Bill[42] == Line3[13] && Bill[43] == Line3[14] && Bill[44] == Line3[15];
  }

  lemma {:induction false} BillNumber()
    ensures ApiAmount.LabelledNumber(Bill, 44) == ApiAmount.NumberMatch("450", true, "00", 50)
  {
    BillChars();
    RunExact(Bill, 44, 3, ApiAmount.IsDigitOrComma);
    RunExact(Bill, 48, 2, IsDigit);
    assert Bill[44..47] == "450" && Bill[48..50] == "00";
  }

  lemma {:induction false} BillCents()
    ensures ApiAmount.ParseNumber(ApiAmount.NumberMatch("450", true, "00", 50)) == Success(45000)
  {
    assert ReplaceAll("450", ",", "") == "450";
    assert DigitsValue("450") == 450 by {
      assert "450"[..2] == "45" && "45"[..1] == "4" && "4"[..0] == "";
    }
  }

  // ---------------------------------------------------------------------------
  // Date: the first expression hits "01-04-2024" at position 18
  // ---------------------------------------------------------------------------

  lemma {:induction false} BillDate(now: Date)
    ensures ApiDate.DateOf(Bill, now) == Date(2024, 4, 1)
  {
    var m := (t: string, i: nat) => ApiDate.PatternAt(0, t, i);
    forall k | 0 <= k < 18 ensures m(Bill, k).None? {
      BillNoDate(k);
    }
    BillDateHit();
    FirstMatchAt(Bill, 0, 18, m);
    ApiDate.DashedDayFirst();
  }

  lemma {:induction false} BillNoDate(k: nat)
    requires k < 18
    ensures ApiDate.PatternAt(0, Bill, k).None?
  {
    BillChars();
    assert !IsDigit(Bill[k]);
    assert Run(Bill, k, IsDigit) == 0;
  }

  lemma {:induction false} BillDateHit()
    ensures ApiDate.PatternAt(0, Bill, 18) == Some("01-04-2024")
  {
    BillChars();
    BillDayField();
    BillMonthField();
    BillYearField();
    assert ApiDate.DayFirstAt(Bill, 18) == Some(28);
    assert Bill[18..28] == "01-04-2024";
  }

  lemma {:induction false} BillDayField()
    ensures DigitField(Bill, 18, 1, 2) == Some(20) && Bill[20] == '-'
  {
    BillChars();
    RunExact(Bill, 18, 2, IsDigit);
  }

  lemma {:induction false} BillMonthField()
    ensures DigitField(Bill, 21, 1, 2) == Some(23) && Bill[23] == '-'
  {
    BillChars();
    RunExact(Bill, 21, 2, IsDigit);
  }

  lemma {:induction false} BillYearField()
    ensures DigitField(Bill, 24, 2, 4) == Some(28) && Bill[28] == '\n'
  {
    BillChars();
    RunExact(Bill, 24, 4, IsDigit);
  }

  // ---------------------------------------------------------------------------
  // Currency: the rupee sign at position 43
  // ---------------------------------------------------------------------------

  lemma {:induction false} BillCurrency()
    ensures ApiCurrency.CurrencyOf(Bill) == "₹"
  {
    BillChars();
    forall k | 0 <= k < 43 ensures ApiCurrency.SymbolAt(Bill, k).None? {
      assert !IsCurrencySymbol(Bill[k]);
    }
    FirstMatchAt(Bill, 0, 43, ApiCurrency.SymbolAt);
  }

  // ---------------------------------------------------------------------------
  // Category: "BESCOM" is the sixth entry, and no earlier name occurs in it
  // ---------------------------------------------------------------------------

  lemma {:induction false} BescomCategory()
    ensures ApiReceipt.CategoryOf("BESCOM") == "Electricity"
  {
    assert Lower("BESCOM") == "bescom";
    BescomNames();
    MissingCharNotContained("bescom", "amazon", 0);
    MissingCharNotContained("bescom", "flipkart", 0);
    MissingCharNotContained("bescom", "swiggy", 1);
    MissingCharNotContained("bescom", "zomato", 0);
    MissingCharNotContained("bescom", "reliance", 0);
    assert OccursAt("bescom", "bescom", 0);
    ContainsIff("bescom", "bescom");
    var j := ApiReceipt.CategoryIsFirstKnown("BESCOM");
  }

  lemma {:induction false} BescomNames()
    ensures Lower(ApiReceipt.KnownVendors[0].0) == "amazon"
    ensures Lower(ApiReceipt.KnownVendors[1].0) == "flipkart"
    ensures Lower(ApiReceipt.KnownVendors[2].0) == "swiggy"
    ensures Lower(ApiReceipt.KnownVendors[3].0) == "zomato"
    ensures Lower(ApiReceipt.KnownVendors[4].0) == "reliance"
    ensures Lower(ApiReceipt.KnownVendors[5].0) == "bescom"
  {
  }
}

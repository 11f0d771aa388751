/**
 * Dashboard strategy, a worked amount: the text "Rs.1,234.50" is normalised to
 * "₹1234.50", which holds a single hit of the amount expression, so the amount
 * reported is "₹1234.5" and the record carries the rupee sign and 1234.50,
 * whatever the other inputs of the record.
 */
module DashboardExample {
  import opened Wrappers
  import opened Text
  import opened Search
  import opened Decimal
  import opened Calendar
  import opened DashboardAmount
  import opened DashboardCategory
  import DashboardReceipt

  const Rest: string := "234.50"
  const Num: string := "1" + Rest
  const RsText: string := "Rs." + ("1" + ("," + Rest))
  const NoComma: string := "Rs." + Num
  const Rupee: string := "₹" + Num

  /** The hit of the normalised text, as a candidate. */
  const RupeeCandidate: Candidate := Candidate(Rupee, 123450, "₹", Score(Lower(Rupee), true))

  lemma {:induction false} RsAmount()
    ensures AmountOf(RsText) == "₹1234.5"
  {
    RsCandidates();
    assert BestIndex([RupeeCandidate]) == 0;
    RupeeText();
  }

  /** The record built from the text carries the rupee sign and 1234.50. */
  lemma {:induction false} RsRecord(filename: string, topVendors: seq<string>,
                                    parse: string -> Option<Date>, nowYear: nat, rules: Option<seq<Rule>>)
    ensures var r := DashboardReceipt.ReceiptOf(RsText, filename, topVendors, parse, nowYear, rules);
            r.Some? && r.value.amount == Some(123450) && r.value.currency == "₹"
  {
    assert RsText[0] == 'R';
    StripEmptyIff(RsText);
    RsCandidates();
    assert BestIndex([RupeeCandidate]) == 0;
    DashboardReceipt.RecordAmountIsBest(RsText, filename, topVendors, parse, nowYear, rules);
  }

  lemma {:induction false} RsCandidates()
    ensures Candidates(RsText) == [RupeeCandidate]
  {
    RsNormalised();
    RupeeOneLine();
    RupeeMatches();
    RupeeCents();
    StripTrimmed(Rupee);
    assert LineCandidates(Rupee) == [RupeeCandidate];
    assert [Rupee][..0] == [];
  }

  lemma {:induction false} RsNormalised()
    ensures Normalise(RsText) == Rupee
  {
    CommaDropped();
    ReplaceFree(NoComma, "INR", "₹");
    RsRewritten();
  }

  lemma {:induction false} CommaDropped()
    ensures ReplaceAll(RsText, ",", "") == NoComma
  {
    ReplaceAfterFree("Rs.", "1" + ("," + Rest), ",", "");
    ReplaceAfterFree("1", "," + Rest, ",", "");
    ReplaceAtStart(",", "", Rest);
    ReplaceFree(Rest, ",", "");
    assert "" + Rest == Rest;
  }

  lemma {:induction false} RsRewritten()
    ensures ReplaceAll(NoComma, "Rs.", "₹") == Rupee
  {
    ReplaceAtStart("Rs.", "₹", Num);
    ReplaceFree(Num, "Rs.", "₹");
  }

  lemma {:induction false} RupeeChars()
    ensures |Rupee| == 8 && Rupee[0] == '₹' && Rupee[5] == '.'
    ensures forall k :: 1 <= k < 8 && k != 5 ==> IsDigit(Rupee[k])
    ensures forall k :: 0 <= k < 8 ==> Rupee[k] != '\n'
  {
  }

  lemma {:induction false} RupeeOneLine()
    ensures SplitLines(Rupee) == [Rupee]
  {
    RupeeChars();
    RunExact(Rupee, 0, 8, NotNewline);
  }

  lemma {:induction false} RupeeMatches()
    ensures FindAmounts(Rupee) == [AmountMatch(8, "₹", Rupee[1..5], Rupee[6..8])]
  {
    RupeeChars();
    RunExact(Rupee, 1, 4, IsDigit);
    var m := AmountMatch(8, "₹", Rupee[1..5], Rupee[6..8]);
    assert AmountMatchAt(Rupee, 0) == Some(m);
    assert FirstMatch(Rupee, 0, AmountMatchAt) == Some(m);
    assert AmountMatchesFrom(Rupee, 8) == [];
  }

  lemma {:induction false} RupeeCents()
    ensures MatchCents(AmountMatch(8, "₹", Rupee[1..5], Rupee[6..8])) == 123450
  {
    assert Rupee[1..5] == "1234" by {
      assert Rupee[1] == '1' && Rupee[2] == '2' && Rupee[3] == '3' && Rupee[4] == '4';
    }
    assert Rupee[6..8] == "50" by {
      assert Rupee[6] == '5' && Rupee[7] == '0';
    }
    assert DigitsValue("1234") == 1234 by {
      assert "1234"[..3] == "123" && "123"[..2] == "12" && "12"[..1] == "1" && "1"[..0] == "";
    }
  }

  lemma {:induction false} RupeeText()
    ensures "₹" + FloatText(123450) == "₹1234.5"
  {
    assert NatText(1) == "1" && NatText(12) == "12" && NatText(123) == "123";
    assert NatText(1234) == "1234";
    assert FractionText(50) == "5";
  }
}

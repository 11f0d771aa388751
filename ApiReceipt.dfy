/**
 * API strategy, receipt assembly (`parse_receipt` in ocr_parser.py).
 *
 * The vendor, amount, date and currency come from the four extractors of this
 * strategy. The category comes from a fixed table of nine well-known vendors: the
 * first entry, in table order, whose lower-cased name occurs in the lower-cased vendor
 * gives it, and "Other" comes back when none does. A failing amount conversion is the
 * failure of the whole call, which the upload handler reports as a client error.
 */
module ApiReceipt {
  import opened Wrappers
  import opened Text
  import opened Calendar
  import ApiVendor
  import ApiAmount
  import ApiDate
  import ApiCurrency

  /** The table `known_vendors`: vendor name and category, in insertion order. */
  const KnownVendors: seq<(string, string)> := [
    ("Amazon", "Shopping"), ("Flipkart", "Shopping"), ("Swiggy", "Food"),
    ("Zomato", "Food"), ("Reliance", "Grocery"), ("BESCOM", "Electricity"),
    ("ACT", "Internet"), ("Airtel", "Internet"), ("Vodafone", "Internet")
  ]

  const Other: string := "Other"

  /** The parsed receipt; `amount` in hundredths. */
  datatype Receipt = Receipt(vendor: string, amount: nat, date: Date, category: string, currency: string)

  /** The first table entry from index `k` on whose name occurs in `vendorLower`. */
  function KnownCategoryFrom(vendorLower: string, k: nat): Option<string>
    requires k <= |KnownVendors|
    decreases |KnownVendors| - k
  {
    if k == |KnownVendors| then None
    else if Contains(vendorLower, Lower(KnownVendors[k].0)) then Some(KnownVendors[k].1)
    else KnownCategoryFrom(vendorLower, k + 1)
  }

  /** `next((cat for v, cat in known_vendors.items() if v.lower() in vendor.lower()), "Other")` */
  function CategoryOf(vendor: string): string {
    KnownCategoryFrom(Lower(vendor), 0).GetOr(Other)
  }

  /** What `parse_receipt` returns, or the error raised by the amount conversion. */
  function ReceiptOf(text: string, now: Date): Result<Receipt, string> {
    var vendor := ApiVendor.VendorOf(text);
    match ApiAmount.AmountOf(text)
    case Failure(e) => Failure(e)
    case Success(amount) =>
      Success(Receipt(vendor, amount, ApiDate.DateOf(text, now), CategoryOf(vendor),
                      ApiCurrency.CurrencyOf(text)))
  }

  method ParseReceipt(text: string, now: Date) returns (r: Result<Receipt, string>)
    ensures r == ReceiptOf(text, now)
  {
    var vendor := ApiVendor.ExtractVendor(text);
    var amount := ApiAmount.ExtractAmount(text);
    if amount.Failure? {
      return Failure(amount.error);
    }
    var date := ApiDate.ExtractDate(text, now);
    var currency := ApiCurrency.CurrencyOf(text);
    r := Success(Receipt(vendor, amount.value, date, CategoryOf(vendor), currency));
  }

  // ---------------------------------------------------------------------------
  // Properties
  // ---------------------------------------------------------------------------

  lemma {:induction false} KnownCategoryFromSpec(vendorLower: string, k: nat) returns (j: nat)
    requires k <= |KnownVendors|
    ensures k <= j <= |KnownVendors|
    ensures forall j' :: k <= j' < j ==> !Contains(vendorLower, Lower(KnownVendors[j'].0))
    ensures j == |KnownVendors| ==> KnownCategoryFrom(vendorLower, k) == None
    ensures j < |KnownVendors| ==> (Contains(vendorLower, Lower(KnownVendors[j].0))
              && KnownCategoryFrom(vendorLower, k) == Some(KnownVendors[j].1))
    decreases |KnownVendors| - k
  {
    if k == |KnownVendors| || Contains(vendorLower, Lower(KnownVendors[k].0)) {
      j := k;
    } else {
      j := KnownCategoryFromSpec(vendorLower, k + 1);
    }
  }

  /** The category is that of the first table entry whose name occurs in the vendor,
      ignoring case, and "Other" when none does; `j` is that entry, or the size of the
      table. */
  lemma {:induction false} CategoryIsFirstKnown(vendor: string) returns (j: nat)
    ensures j <= |KnownVendors|
    ensures forall j' :: 0 <= j' < j ==> !Contains(Lower(vendor), Lower(KnownVendors[j'].0))
    ensures j == |KnownVendors| ==> CategoryOf(vendor) == Other
    ensures j < |KnownVendors| ==> (Contains(Lower(vendor), Lower(KnownVendors[j].0))
              && CategoryOf(vendor) == KnownVendors[j].1)
  {
    j := KnownCategoryFromSpec(Lower(vendor), 0);
  }

  /** The call fails exactly when the amount conversion fails, which happens only for
      a labelled hit whose number is all commas; otherwise every field comes from its
      extractor, and the date is a real one when `now` is. */
  lemma {:induction false} ReceiptFields(text: string, now: Date)
    requires ValidDate(now)
    ensures ReceiptOf(text, now).Failure? <==> ApiAmount.AmountOf(text).Failure?
    ensures ReceiptOf(text, now).Failure? ==> ApiAmount.SearchPattern(0, text).Some?
    ensures ReceiptOf(text, now).Success? ==>
              var r := ReceiptOf(text, now).value;
              r.vendor == ApiVendor.VendorOf(text) && Success(r.amount) == ApiAmount.AmountOf(text)
              && r.date == ApiDate.DateOf(text, now) && ValidDate(r.date)
              && r.category == CategoryOf(r.vendor) && r.currency == ApiCurrency.CurrencyOf(text)
  {
    ApiAmount.FailureOnlyFromLabel(text);
    ApiDate.DateAlwaysValid(text, now);
  }
}

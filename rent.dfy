/** Rent normalisation on the client (frontend/src/utils/rent.ts): listings
    whose summary says the rent is weekly are converted to a monthly price,
    and every listing gets a display label. Prices are integers; see
    `WeeklyToMonthly` for the rounding. */
module Rent {
  import opened Wrappers
  import opened Text
  import opened Json

  /** `Math.round(p * 52 / 12)` for an integer weekly price `p`. The exact
      value is 13p/3, whose fractional part is 0, 1/3 or 2/3, so it is never
      a tie and rounding to nearest is `floor(13p/3 + 1/2)`. */
  function WeeklyToMonthly(p: int): int {
    (26 * p + 3) / 6
  }

  /** The result is the integer nearest to 52p/12: it is within a third of
      it, and it is the only integer within a half of it. */
  lemma WeeklyToMonthlyIsNearest(p: int, m: int)
    ensures -1 <= 3 * WeeklyToMonthly(p) - 13 * p <= 1
    ensures -3 <= 6 * m - 26 * p <= 3 ==> m == WeeklyToMonthly(p)
  {
    var r := WeeklyToMonthly(p);
    var rem := (26 * p + 3) % 6;
    assert 26 * p + 3 == 6 * r + rem;
    assert 2 * (3 * r - 13 * p) == 3 - rem;
    if -3 <= 6 * m - 26 * p <= 3 {
      assert -2 < 6 * (m - r) < 2;
    }
  }

  /** A higher weekly price never gives a lower monthly one. */
  lemma WeeklyToMonthlyMonotone(p: int, q: int)
    requires p <= q
    ensures WeeklyToMonthly(p) <= WeeklyToMonthly(q)
  {
    WeeklyToMonthlyIsNearest(p, 0);
    WeeklyToMonthlyIsNearest(q, 0);
  }

  /** `(listing.summary || '').toLowerCase()`; `None` when a truthy summary
      is not a string (calling `toLowerCase` on it throws). */
  function SummaryText(listing: Fields): Option<string> {
    var summary := Get(listing, "summary");
    if !JsTruthy(summary) then Some("")
    else if summary.Str? then Some(Lower(summary.s))
    else None
  }

  /** The lowercased summary mentions a weekly rent. */
  predicate MentionsWeekly(text: string) {
    Contains(text, "pw") || Contains(text, "per week") || Contains(text, "/week")
  }

  /** `listing.price || 0`. */
  function BasePrice(listing: Fields): Json {
    var price := Get(listing, "price");
    if JsTruthy(price) then price else Num(0)
  }

  function WeeklyLabel(p: int): string {
    "£" + IntToString(p) + "pw (£" + IntToString(WeeklyToMonthly(p)) + "/mo)"
  }

  function MonthlyLabel(price: Json): string {
    "£" + JsString(price) + "/month"
  }

  /** `normalizeRent`: the listing with "price" and "priceLabel" set (an
      existing key keeps its place, a new one goes last). `None` when it
      throws, and when a weekly listing's price is not a number (arithmetic
      on other values is not modelled). */
  function NormalizeRent(listing: Fields): Option<Fields> {
    match SummaryText(listing)
    case None => None
    case Some(text) =>
      var price := BasePrice(listing);
      if MentionsWeekly(text) then
        if price.Num? then Some(Set(Set(listing, "price", Num(WeeklyToMonthly(price.n))), "priceLabel", Str(WeeklyLabel(price.n))))
        else None
      else Some(Set(Set(listing, "price", price), "priceLabel", Str(MonthlyLabel(price))))
  }

  /** Every field other than "price" and "priceLabel" is copied unchanged. */
  lemma NormalizeRentKeepsOtherFields(listing: Fields, k: string)
    requires NormalizeRent(listing).Some?
    requires k != "price" && k != "priceLabel"
    ensures Lookup(NormalizeRent(listing).value, k) == Lookup(listing, k)
  {
  }

  /** A weekly listing gets the monthly equivalent as its price and a label
      showing both. */
  lemma NormalizeRentWeekly(listing: Fields)
    requires SummaryText(listing).Some? && MentionsWeekly(SummaryText(listing).value)
    requires BasePrice(listing).Num?
    ensures var p := BasePrice(listing).n;
            NormalizeRent(listing).Some?
            && Lookup(NormalizeRent(listing).value, "price") == Some(Num(WeeklyToMonthly(p)))
            && Lookup(NormalizeRent(listing).value, "priceLabel") == Some(Str(WeeklyLabel(p)))
  {
  }

  /** Any other listing keeps its price (0 when missing or zero) and is
      labelled per month. */
  lemma NormalizeRentMonthly(listing: Fields)
    requires SummaryText(listing).Some? && !MentionsWeekly(SummaryText(listing).value)
    ensures NormalizeRent(listing).Some?
    ensures Lookup(NormalizeRent(listing).value, "price") == Some(BasePrice(listing))
    ensures Lookup(NormalizeRent(listing).value, "priceLabel") == Some(Str(MonthlyLabel(BasePrice(listing))))
  {
  }

  /** A listing without a summary is never weekly. */
  lemma MissingSummaryIsMonthly(listing: Fields)
    requires !HasKey(listing, "summary")
    ensures SummaryText(listing) == Some("") && !MentionsWeekly("")
    ensures NormalizeRent(listing).Some?
  {
    assert !StartsWith("", "pw");
    assert !StartsWith("", "per week");
    assert !StartsWith("", "/week");
  }

  /** A listing with neither a summary nor a price is priced 0 and labelled
      "£0/month". */
  lemma UnpricedIsZeroMonthly(listing: Fields)
    requires !HasKey(listing, "summary") && !HasKey(listing, "price")
    ensures NormalizeRent(listing).Some?
    ensures Lookup(NormalizeRent(listing).value, "price") == Some(Num(0))
    ensures Lookup(NormalizeRent(listing).value, "priceLabel") == Some(Str("£0/month"))
  {
    MissingSummaryIsMonthly(listing);
    NormalizeRentMonthly(listing);
    ZeroMonthlyLabel();
  }

  lemma ZeroMonthlyLabel()
    ensures MonthlyLabel(Num(0)) == "£0/month"
  {
    assert IntToString(0) == "0";
  }

  /** A missing price reads as 0 and stays 0 after conversion. */
  lemma MissingPriceIsZero(listing: Fields)
    requires !HasKey(listing, "price")
    ensures BasePrice(listing) == Num(0) && WeeklyToMonthly(0) == 0
  {
  }
}

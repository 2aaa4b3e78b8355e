/**
 * The four category filters of the destination browser (region, budget,
 * duration, deals), combined with AND and applied with `filter` to the search
 * result.  Each filter is a string chosen in the page; "all" and any value the
 * switches do not name leave the list alone.
 *
 * `Matches` follows the page's own evaluation, which starts from `true` and
 * narrows one `let matches` per switch; `PassesFilters` is the same rule read
 * off per-filter tables, and the method is proved to agree with it.
 */
module CategoryFilters {
  import opened Wrappers
  import opened Seqs
  import opened Text
  import opened Numbers
  import opened Schema

  datatype Filters = Filters(region: string, budget: string, duration: string, deals: string)

  const NoFilters: Filters := Filters("all", "all", "all", "all")

  const AsiaKeywords: seq<string> :=
    ["japan", "china", "thailand", "india", "singapore", "korea", "vietnam", "indonesia", "malaysia", "philippines"]
  const EuropeKeywords: seq<string> :=
    ["france", "italy", "spain", "greece", "germany", "uk", "united kingdom", "england", "switzerland", "austria",
     "norway", "sweden", "iceland", "netherlands", "portugal"]
  const AmericasKeywords: seq<string> :=
    ["usa", "united states", "canada", "mexico", "brazil", "argentina", "chile", "peru", "colombia", "costa rica", "ecuador"]
  const AfricaKeywords: seq<string> :=
    ["south africa", "morocco", "egypt", "kenya", "tanzania", "madagascar", "namibia", "botswana", "zimbabwe", "zambia"]

  const Regions: seq<string> := ["asia", "europe", "americas", "africa"]
  const BudgetBands: seq<string> := ["under-1000", "1000-2000", "2000-3000", "3000-plus"]
  const DurationBands: seq<string> := ["3-5", "6-7", "8-14", "15-plus"]
  const DealKinds: seq<string> := ["flash-sales", "seasonal", "group-discounts", "current-deals"]

  /** Some keyword occurs in the (lower-cased) country. */
  predicate MentionsAny(country: string, keywords: seq<string>) {
    exists k :: 0 <= k < |keywords| && Contains(country, keywords[k])
  }

  /** The keyword list of a region the page knows. */
  function RegionKeywords(region: string): (r: Option<seq<string>>)
    ensures r.Some? <==> region in Regions
  {
    if region == "asia" then Some(AsiaKeywords)
    else if region == "europe" then Some(EuropeKeywords)
    else if region == "americas" then Some(AmericasKeywords)
    else if region == "africa" then Some(AfricaKeywords)
    else None
  }

  /** A price band: below a bound, between two bounds inclusive, or above a bound. */
  datatype Band = Below(hi: real) | Between(lo: real, upTo: real) | Above(lo: real)

  function BudgetBand(budget: string): (r: Option<Band>)
    ensures r.Some? <==> budget in BudgetBands
  {
    if budget == "under-1000" then Some(Below(1000.0))
    else if budget == "1000-2000" then Some(Between(1000.0, 2000.0))
    else if budget == "2000-3000" then Some(Between(2000.0, 3000.0))
    else if budget == "3000-plus" then Some(Above(3000.0))
    else None
  }

  /** JavaScript's `<`, `<=`, `>=`, `>` against a constant: NaN compares false with everything. */
  predicate Less(n: JsNumber, c: real) {
    match n
    case NaN => false
    case Finite(v) => v < c
    case Infinite(negative) => negative
  }

  predicate AtMost(n: JsNumber, c: real) {
    match n
    case NaN => false
    case Finite(v) => v <= c
    case Infinite(negative) => negative
  }

  predicate AtLeast(n: JsNumber, c: real) {
    match n
    case NaN => false
    case Finite(v) => v >= c
    case Infinite(negative) => !negative
  }

  predicate Greater(n: JsNumber, c: real) {
    match n
    case NaN => false
    case Finite(v) => v > c
    case Infinite(negative) => !negative
  }

  predicate InBand(n: JsNumber, b: Band) {
    match b
    case Below(hi) => Less(n, hi)
    case Between(lo, upTo) => AtLeast(n, lo) && AtMost(n, upTo)
    case Above(lo) => Greater(n, lo)
  }

  /** A day-count band: from `lo` days, up to `hi` days when there is an upper end. */
  datatype Days = Days(lo: int, hi: Option<int>)

  function DurationBand(duration: string): (r: Option<Days>)
    ensures r.Some? <==> duration in DurationBands
  {
    if duration == "3-5" then Some(Days(3, Some(5)))
    else if duration == "6-7" then Some(Days(6, Some(7)))
    else if duration == "8-14" then Some(Days(8, Some(14)))
    else if duration == "15-plus" then Some(Days(15, None))
    else None
  }

  predicate InDays(days: int, b: Days) {
    b.lo <= days && (b.hi.None? || days <= b.hi.value)
  }

  /** `hasActivePromo`: any one of the eight promotion fields is set. */
  function HasActivePromo(d: Destination): (r: bool)
    ensures d.flashSale || d.seasonalTag != "" || d.groupDiscountMin > 0 ==> r
  {
    || d.promoTag != ""
    || d.discountPercentage > 0
    || d.seasonalTag != ""
    || d.flashSale
    || d.couponCode != ""
    || d.groupDiscountMin > 0
    || d.loyaltyDiscount > 0
    || d.bundleDeal != ""
  }

  /** The test a deals filter applies, or none for a kind the page does not know. */
  function DealTest(deals: string): (r: Option<Destination -> bool>)
    ensures r.Some? <==> deals in DealKinds
  {
    if deals == "flash-sales" then Some((d: Destination) => d.flashSale)
    else if deals == "seasonal" then Some((d: Destination) => d.seasonalTag != "")
    else if deals == "group-discounts" then Some((d: Destination) => d.groupDiscountMin > 0)
    else if deals == "current-deals" then Some((d: Destination) => HasActivePromo(d))
    else None
  }

  predicate RegionPasses(region: string, d: Destination) {
    match RegionKeywords(region)
    case None => true
    case Some(keywords) => MentionsAny(Lower(d.country), keywords)
  }

  predicate BudgetPasses(budget: string, d: Destination) {
    match BudgetBand(budget)
    case None => true
    case Some(band) => InBand(ParseFloat(d.price), band)
  }

  predicate DurationPasses(duration: string, d: Destination) {
    match DurationBand(duration)
    case None => true
    case Some(band) => InDays(d.duration, band)
  }

  predicate DealsPasses(deals: string, d: Destination) {
    match DealTest(deals)
    case None => true
    case Some(test) => test(d)
  }

  /** The destination survives all four filters. */
  function PassesFilters(f: Filters, d: Destination): (r: bool)
    ensures f.region !in Regions && f.budget !in BudgetBands && f.duration !in DurationBands && f.deals !in DealKinds ==> r
  {
    RegionPasses(f.region, d) && BudgetPasses(f.budget, d) && DurationPasses(f.duration, d) && DealsPasses(f.deals, d)
  }

  function PassesFor(f: Filters): Destination -> bool {
    d => PassesFilters(f, d)
  }

  /**
   * The callback of `searchFilteredDestinations.filter(...)`: `matches` starts
   * out true and each of the four switches may only narrow it.
   */
  method Matches(f: Filters, d: Destination) returns (matches: bool)
    ensures matches == PassesFilters(f, d)
  {
    matches := true;
    matches := NarrowByRegion(f.region, d, matches);
    matches := NarrowByBudget(f.budget, d, matches);
    matches := NarrowByDuration(f.duration, d, matches);
    matches := NarrowByDeals(f.deals, d, matches);
  }

  /** The region switch, on the lower-cased country. */
  method NarrowByRegion(region: string, d: Destination, matches: bool) returns (r: bool)
    ensures r == (matches && RegionPasses(region, d))
  {
    r := matches;
    if region != "all" {
      var country := Lower(d.country);
      if region == "asia" {
        r := r && MentionsAny(country, AsiaKeywords);
      } else if region == "europe" {
        r := r && MentionsAny(country, EuropeKeywords);
      } else if region == "americas" {
        r := r && MentionsAny(country, AmericasKeywords);
      } else if region == "africa" {
        r := r && MentionsAny(country, AfricaKeywords);
      }
    }
  }

  /** The budget switch, on `parseFloat(price)`. */
  method NarrowByBudget(budget: string, d: Destination, matches: bool) returns (r: bool)
    ensures r == (matches && BudgetPasses(budget, d))
  {
    r := matches;
    if budget != "all" {
      var price := ParseFloat(d.price);
      if budget == "under-1000" {
        r := r && Less(price, 1000.0);
      } else if budget == "1000-2000" {
        r := r && AtLeast(price, 1000.0) && AtMost(price, 2000.0);
      } else if budget == "2000-3000" {
        r := r && AtLeast(price, 2000.0) && AtMost(price, 3000.0);
      } else if budget == "3000-plus" {
        r := r && Greater(price, 3000.0);
      }
    }
  }

  /** The duration switch, on the day count. */
  method NarrowByDuration(duration: string, d: Destination, matches: bool) returns (r: bool)
    ensures r == (matches && DurationPasses(duration, d))
  {
    r := matches;
    if duration != "all" {
      if duration == "3-5" {
        r := r && d.duration >= 3 && d.duration <= 5;
      } else if duration == "6-7" {
        r := r && d.duration >= 6 && d.duration <= 7;
      } else if duration == "8-14" {
        r := r && d.duration >= 8 && d.duration <= 14;
      } else if duration == "15-plus" {
        r := r && d.duration >= 15;
      }
    }
  }

  /** The deals switch; `hasActivePromo` is computed before it. */
  method NarrowByDeals(deals: string, d: Destination, matches: bool) returns (r: bool)
    ensures r == (matches && DealsPasses(deals, d))
  {
    r := matches;
    if deals != "all" {
      var hasActivePromo := HasActivePromo(d);
      if deals == "flash-sales" {
        r := r && d.flashSale;
      } else if deals == "seasonal" {
        r := r && d.seasonalTag != "";
      } else if deals == "group-discounts" {
        r := r && d.groupDiscountMin > 0;
      } else if deals == "current-deals" {
        r := r && hasActivePromo;
      }
    }
  }

  /** The filtered list: exactly the destinations that pass, each as often and in the order of the input. */
  lemma FilteredIsSublist(f: Filters, ds: seq<Destination>, d: Destination)
    ensures d in Filter(ds, PassesFor(f)) <==> d in ds && PassesFilters(f, d)
    ensures multiset(Filter(ds, PassesFor(f)))[d] == if PassesFilters(f, d) then multiset(ds)[d] else 0
  {
    FilterMember(ds, PassesFor(f), d);
    FilterMultiset(ds, PassesFor(f), d);
  }

  /** Filters the page does not recognise, "all" among them, let every destination through. */
  lemma UnknownFiltersAreNoOp(f: Filters, ds: seq<Destination>)
    requires f.region !in Regions && f.budget !in BudgetBands
    requires f.duration !in DurationBands && f.deals !in DealKinds
    ensures Filter(ds, PassesFor(f)) == ds
  {
    FilterKeepsAll(ds, PassesFor(f));
  }

  /** With every filter at "all" the list comes back unchanged. */
  lemma AllFiltersAreNoOp(ds: seq<Destination>)
    ensures Filter(ds, PassesFor(NoFilters)) == ds
  {
    UnknownFiltersAreNoOp(NoFilters, ds);
  }

  /** A known region passes exactly the countries that mention one of its keywords. */
  lemma RegionNeedsKeyword(f: Filters, d: Destination)
    requires f.region in Regions
    ensures PassesFilters(f, d) ==> MentionsAny(Lower(d.country), RegionKeywords(f.region).value)
    ensures !MentionsAny(Lower(d.country), RegionKeywords(f.region).value) ==> !PassesFilters(f, d)
  {
  }

  /**
   * The budget bands on a parsed price: NaN (a price that does not begin
   * with a number) passes none; every finite price passes one; bands overlap
   * only at 2000, which both middle bands include.
   */
  lemma BudgetBandsCover(n: JsNumber)
    ensures n.NaN? ==> forall b :: b in BudgetBands ==> !InBand(n, BudgetBand(b).value)
    ensures n.Finite? ==> exists b :: b in BudgetBands && InBand(n, BudgetBand(b).value)
    ensures InBand(n, BudgetBand("1000-2000").value) && InBand(n, BudgetBand("2000-3000").value)
            <==> n == Finite(2000.0)
    ensures !(InBand(n, BudgetBand("under-1000").value) && InBand(n, BudgetBand("1000-2000").value))
    ensures !(InBand(n, BudgetBand("2000-3000").value) && InBand(n, BudgetBand("3000-plus").value))
    ensures !(InBand(n, BudgetBand("under-1000").value) && InBand(n, BudgetBand("2000-3000").value))
    ensures !(InBand(n, BudgetBand("1000-2000").value) && InBand(n, BudgetBand("3000-plus").value))
    ensures !(InBand(n, BudgetBand("under-1000").value) && InBand(n, BudgetBand("3000-plus").value))
  {
    if n.Finite? {
      var v := n.value;
      if v < 1000.0 {
        assert InBand(n, BudgetBand(BudgetBands[0]).value);
      } else if v <= 2000.0 {
        assert InBand(n, BudgetBand(BudgetBands[1]).value);
      } else if v <= 3000.0 {
        assert InBand(n, BudgetBand(BudgetBands[2]).value);
      } else {
        assert InBand(n, BudgetBand(BudgetBands[3]).value);
      }
    }
  }

  /** The band boundaries as the page writes them: 1000 and 3000 fall in one band each, 2000 in two. */
  lemma BudgetBoundaries()
    ensures InBand(Finite(1000.0), BudgetBand("1000-2000").value)
    ensures !InBand(Finite(1000.0), BudgetBand("under-1000").value)
    ensures !InBand(Finite(1000.0), BudgetBand("2000-3000").value)
    ensures InBand(Finite(2000.0), BudgetBand("1000-2000").value)
    ensures InBand(Finite(2000.0), BudgetBand("2000-3000").value)
    ensures InBand(Finite(3000.0), BudgetBand("2000-3000").value)
    ensures !InBand(Finite(3000.0), BudgetBand("3000-plus").value)
    ensures !InBand(Finite(3000.0), BudgetBand("1000-2000").value)
  {
  }

  /**
   * A price written as plain digits is judged by the number they spell, so
   * with `BudgetBoundaries` a price of "2000" is listed under both
   * "1000-2000" and "2000-3000".
   */
  lemma DigitPriceBands(d: Destination)
    requires d.price != [] && AllDigits(d.price)
    ensures ParseFloat(d.price) == Finite(DigitsValue(d.price) as real)
    ensures forall b :: b in BudgetBands ==>
              (BudgetPasses(b, d) <==> InBand(Finite(DigitsValue(d.price) as real), BudgetBand(b).value))
  {
    assert d.price == d.price + [];
    ParseFloatDigits(d.price, []);
  }

  /** The duration bands never overlap; under 3 days passes none, and 3 days or more passes exactly one. */
  lemma DurationBandsPartition(days: int)
    ensures forall a, b :: a in DurationBands && b in DurationBands && a != b ==>
              !(InDays(days, DurationBand(a).value) && InDays(days, DurationBand(b).value))
    ensures days < 3 <==> forall a :: a in DurationBands ==> !InDays(days, DurationBand(a).value)
  {
    if days >= 3 {
      var i := if days <= 5 then 0 else if days <= 7 then 1 else if days <= 14 then 2 else 3;
      assert InDays(days, DurationBand(DurationBands[i]).value);
    }
  }

  /** Each single-field deals filter is narrower than "current-deals". */
  lemma DealsImplyCurrentDeals(d: Destination)
    ensures DealsPasses("flash-sales", d) ==> DealsPasses("current-deals", d)
    ensures DealsPasses("seasonal", d) ==> DealsPasses("current-deals", d)
    ensures DealsPasses("group-discounts", d) ==> DealsPasses("current-deals", d)
  {
  }
}

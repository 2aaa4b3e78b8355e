/**
 * The destination browser's list: the search result, narrowed by the four
 * category filters, in the chosen sort order (client/src/pages/Destinations.tsx,
 * `searchFilteredDestinations`, `filteredDestinations`, `sortedDestinations`).
 */
module Browse {
  import opened Seqs
  import opened Text
  import opened Numbers
  import opened Schema
  import opened Search
  import opened CategoryFilters
  import opened SortOrder

  /**
   * The list the page shows, as a value: no destination more often than it
   * was fetched, and every one shown passes the filters.
   */
  function Shown(query: string, f: Filters, sortBy: string, nameLe: (Destination, Destination) -> bool,
                 ds: seq<Destination>): (r: seq<Destination>)
    ensures multiset(r) <= multiset(ds)
    ensures forall i :: 0 <= i < |r| ==> PassesFilters(f, r[i])
  {
    var kept := Filter(SearchResult(query, ds), PassesFor(f));
    FilterSubMultiset(SearchResult(query, ds), PassesFor(f));
    SortPermutes(kept, sortBy, nameLe);
    PermutedFilterSatisfies(SearchResult(query, ds), PassesFor(f), InsertionSort(kept, ComparatorFor(sortBy, nameLe)));
    InsertionSort(Filter(SearchResult(query, ds), PassesFor(f)), ComparatorFor(sortBy, nameLe))
  }

  /** Search, then filter, then sort a copy. */
  method ShowDestinations(query: string, destinations: array<Destination>, f: Filters, sortBy: string,
                          nameLe: (Destination, Destination) -> bool)
    returns (shown: array<Destination>)
    ensures fresh(shown)
    ensures shown[..] == Shown(query, f, sortBy, nameLe, destinations[..])
  {
    var searched := SearchDestinations(query, destinations);
    var kept := Filter(searched[..], PassesFor(f));
    var filtered := new Destination[|kept|](i requires 0 <= i < |kept| => kept[i]);
    assert filtered[..] == kept;
    shown := SortDestinations(filtered, sortBy, nameLe);
  }

  /** The query's verdict on one destination: a blank query keeps everything. */
  predicate Found(query: string, d: Destination) {
    Trim(query) == [] || Keeps(SearchTerms(query), d)
  }

  /**
   * The page shows exactly the destinations the search finds and the filters
   * pass, each as often as it occurs in the fetched list.
   */
  lemma ShownContents(query: string, f: Filters, sortBy: string, nameLe: (Destination, Destination) -> bool,
                      ds: seq<Destination>, d: Destination)
    ensures multiset(Shown(query, f, sortBy, nameLe, ds))[d]
         == if Found(query, d) && PassesFilters(f, d) then multiset(ds)[d] else 0
  {
    var searched := SearchResult(query, ds);
    SortPermutes(Filter(searched, PassesFor(f)), sortBy, nameLe);
    FilteredIsSublist(f, searched, d);
    if Trim(query) != [] {
      SearchKeepsMatches(query, ds, d);
    }
  }

  /** With an empty query and every filter at "all", the page shows the whole list in the chosen order. */
  lemma DefaultViewIsWholeList(query: string, sortBy: string, nameLe: (Destination, Destination) -> bool,
                               ds: seq<Destination>)
    requires AllWhitespace(query)
    ensures Shown(query, NoFilters, sortBy, nameLe, ds) == InsertionSort(ds, ComparatorFor(sortBy, nameLe))
  {
    BlankQueryKeepsList(query, ds);
    AllFiltersAreNoOp(ds);
  }

  /**
   * The budget filter and the price sort read a price differently: for a
   * price whose digits a comma splits into `whole` and `rest`, `parseFloat`
   * stops at the comma, so the budget bands judge it by `whole` alone, while
   * the sort strips the comma and orders it by all its digits.
   */
  lemma PriceParsersDisagree(d: Destination, whole: string, rest: string)
    requires d.price == whole + "," + rest
    requires whole != [] && AllDigits(whole) && AllDigits(rest)
    ensures ParseFloat(d.price) == Finite(DigitsValue(whole) as real)
    ensures forall b :: b in BudgetBands ==>
              (BudgetPasses(b, d) <==> InBand(Finite(DigitsValue(whole) as real), BudgetBand(b).value))
    ensures PriceKey(d) == DigitsValue(whole) * Pow10(|rest|) + DigitsValue(rest)
  {
    assert d.price == whole + ("," + rest);
    ParseFloatDigits(whole, "," + rest);
    CommaPriceDigits(whole, rest);
    DigitsValueAppend(whole, rest);
  }

  lemma CommaPriceDigits(whole: string, rest: string)
    requires AllDigits(whole) && AllDigits(rest)
    ensures Filter(whole + "," + rest, IsDigit) == whole + rest
  {
    FilterAppend(whole + ",", rest, IsDigit);
    FilterAppend(whole, ",", IsDigit);
    FilterKeepsAll(whole, IsDigit);
    FilterKeepsAll(rest, IsDigit);
    FilterKeepsNone(",", IsDigit);
  }

  /** "1,500" is listed under "under-1000" and sorted as 1500. */
  lemma CommaPriceExample(d: Destination)
    requires d.price == "1,500"
    ensures BudgetPasses("under-1000", d)
    ensures PriceKey(d) == 1500
  {
    assert d.price == "1" + "," + "500";
    PriceParsersDisagree(d, "1", "500");
    DigitsOfExample();
  }

  lemma DigitsOfExample()
    ensures DigitsValue("1") == 1 && DigitsValue("500") == 500 && Pow10(|"500"|) == 1000
  {
    assert "1"[..0] == "";
    assert "5"[..0] == "" && DigitsValue("5") == 5;
    assert "50"[..1] == "5" && DigitsValue("50") == 50;
    assert "500"[..2] == "50";
  }
}

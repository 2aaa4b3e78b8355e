/**
 * `sortDestinations`: the browser's six sort orders, each a comparator handed
 * to `Array.prototype.sort` on a copy of the list.  Ratings are in tenths of
 * a star, so the popularity bonus of 1 for a flash sale and 0.5 for a promo
 * tag become 10 and 5 tenths.  The name order (`localeCompare`) is a
 * parameter.
 */
module SortOrder {
  import opened Wrappers
  import opened Seqs
  import opened Text
  import opened Schema

  /** `parseInt(price.replace(/[^0-9]/g, '')) || 0`: the price's digits read as one number, 0 when it has none. */
  function PriceKey(d: Destination): (r: nat)
    ensures r < Pow10(|Filter(d.price, IsDigit)|)
    ensures (forall i :: 0 <= i < |d.price| ==> !IsDigit(d.price[i])) ==> r == 0
  {
    DigitsValueBelow(Filter(d.price, IsDigit));
    if forall i :: 0 <= i < |d.price| ==> !IsDigit(d.price[i]) then
      FilterKeepsNone(d.price, IsDigit);
      DigitsValue(Filter(d.price, IsDigit))
    else
      DigitsValue(Filter(d.price, IsDigit))
  }

  /** `rating ? parseFloat(rating.toString()) : 0`, in tenths. */
  function RatingKey(d: Destination): (r: int)
    ensures d.rating.None? ==> r == 0
    ensures d.rating.Some? ==> r == d.rating.value
  {
    match d.rating
    case None => 0
    case Some(tenths) => tenths
  }

  /** `duration || 0`. */
  function DurationKey(d: Destination): int {
    d.duration
  }

  /** Rating plus 1 for a flash sale plus 0.5 for a promo tag, in tenths. */
  function PopularityKey(d: Destination): (r: int)
    ensures RatingKey(d) <= r <= RatingKey(d) + 15
    ensures d.flashSale ==> r >= RatingKey(d) + 10
    ensures !d.flashSale && d.promoTag == "" ==> r == RatingKey(d)
  {
    RatingKey(d) + (if d.flashSale then 10 else 0) + (if d.promoTag != "" then 5 else 0)
  }

  /** An ascending comparator `key(a) - key(b)`. */
  function Ascending(key: Destination -> int): (Destination, Destination) -> bool {
    (a, b) => key(a) <= key(b)
  }

  /** A descending comparator `key(b) - key(a)`. */
  function Descending(key: Destination -> int): (Destination, Destination) -> bool {
    (a, b) => key(a) >= key(b)
  }

  function PriceKeyOf(): Destination -> int {
    d => PriceKey(d)
  }

  function RatingKeyOf(): Destination -> int {
    d => RatingKey(d)
  }

  function DurationKeyOf(): Destination -> int {
    d => DurationKey(d)
  }

  function PopularityKeyOf(): Destination -> int {
    d => PopularityKey(d)
  }

  const SortModes: seq<string> := ["price-low", "price-high", "rating", "duration", "popularity"]

  /** The comparator the `switch (sortBy)` picks; "name" and every other value use the name order. */
  function ComparatorFor(sortBy: string, nameLe: (Destination, Destination) -> bool): (r: (Destination, Destination) -> bool)
    ensures sortBy !in SortModes ==> r == nameLe
    ensures sortBy in SortModes || TotalPreorder(nameLe) ==> TotalPreorder(r)
  {
    AscendingIsPreorder(PriceKeyOf());
    DescendingIsPreorder(PriceKeyOf());
    DescendingIsPreorder(RatingKeyOf());
    AscendingIsPreorder(DurationKeyOf());
    DescendingIsPreorder(PopularityKeyOf());
    if sortBy == "price-low" then Ascending(PriceKeyOf())
    else if sortBy == "price-high" then Descending(PriceKeyOf())
    else if sortBy == "rating" then Descending(RatingKeyOf())
    else if sortBy == "duration" then Ascending(DurationKeyOf())
    else if sortBy == "popularity" then Descending(PopularityKeyOf())
    else nameLe
  }

  /** `sortDestinations(destinations, sortBy)`: sorts a copy, the input array is left as it was. */
  method SortDestinations(destinations: array<Destination>, sortBy: string, nameLe: (Destination, Destination) -> bool)
    returns (sorted: array<Destination>)
    ensures fresh(sorted)
    ensures sorted[..] == InsertionSort(destinations[..], ComparatorFor(sortBy, nameLe))
  {
    sorted := new Destination[destinations.Length](i requires 0 <= i < destinations.Length reads destinations => destinations[i]);
    assert sorted[..] == destinations[..];
    var le;
    if sortBy == "price-low" {
      le := Ascending(PriceKeyOf());
    } else if sortBy == "price-high" {
      le := Descending(PriceKeyOf());
    } else if sortBy == "rating" {
      le := Descending(RatingKeyOf());
    } else if sortBy == "duration" {
      le := Ascending(DurationKeyOf());
    } else if sortBy == "popularity" {
      le := Descending(PopularityKeyOf());
    } else {
      le := nameLe;
    }
    SortInPlace(sorted, le);
  }

  lemma AscendingIsPreorder(key: Destination -> int)
    ensures TotalPreorder(Ascending(key))
  {
  }

  lemma DescendingIsPreorder(key: Destination -> int)
    ensures TotalPreorder(Descending(key))
  {
  }

  /** Every order is a permutation of the input. */
  lemma SortPermutes(ds: seq<Destination>, sortBy: string, nameLe: (Destination, Destination) -> bool)
    ensures multiset(InsertionSort(ds, ComparatorFor(sortBy, nameLe))) == multiset(ds)
  {
    InsertionSortPermutes(ds, ComparatorFor(sortBy, nameLe));
  }

  /** "price-low": non-decreasing digit-stripped price, a price without digits counting as 0. */
  lemma PriceLowSorted(ds: seq<Destination>, nameLe: (Destination, Destination) -> bool)
    ensures forall i, j :: 0 <= i < j < |InsertionSort(ds, ComparatorFor("price-low", nameLe))| ==>
              PriceKey(InsertionSort(ds, ComparatorFor("price-low", nameLe))[i])
              <= PriceKey(InsertionSort(ds, ComparatorFor("price-low", nameLe))[j])
  {
    AscendingIsPreorder(PriceKeyOf());
    InsertionSortSorted(ds, Ascending(PriceKeyOf()));
  }

  /** "price-high": non-increasing digit-stripped price. */
  lemma PriceHighSorted(ds: seq<Destination>, nameLe: (Destination, Destination) -> bool)
    ensures forall i, j :: 0 <= i < j < |InsertionSort(ds, ComparatorFor("price-high", nameLe))| ==>
              PriceKey(InsertionSort(ds, ComparatorFor("price-high", nameLe))[i])
              >= PriceKey(InsertionSort(ds, ComparatorFor("price-high", nameLe))[j])
  {
    DescendingIsPreorder(PriceKeyOf());
    InsertionSortSorted(ds, Descending(PriceKeyOf()));
  }

  /** "rating": non-increasing rating, a missing rating counting as 0. */
  lemma RatingSorted(ds: seq<Destination>, nameLe: (Destination, Destination) -> bool)
    ensures forall i, j :: 0 <= i < j < |InsertionSort(ds, ComparatorFor("rating", nameLe))| ==>
              RatingKey(InsertionSort(ds, ComparatorFor("rating", nameLe))[i])
              >= RatingKey(InsertionSort(ds, ComparatorFor("rating", nameLe))[j])
  {
    DescendingIsPreorder(RatingKeyOf());
    InsertionSortSorted(ds, Descending(RatingKeyOf()));
  }

  /** "duration": non-decreasing day count. */
  lemma DurationSorted(ds: seq<Destination>, nameLe: (Destination, Destination) -> bool)
    ensures forall i, j :: 0 <= i < j < |InsertionSort(ds, ComparatorFor("duration", nameLe))| ==>
              InsertionSort(ds, ComparatorFor("duration", nameLe))[i].duration
              <= InsertionSort(ds, ComparatorFor("duration", nameLe))[j].duration
  {
    AscendingIsPreorder(DurationKeyOf());
    InsertionSortSorted(ds, Ascending(DurationKeyOf()));
  }

  /** "popularity": non-increasing rating + flash-sale bonus + promo bonus. */
  lemma PopularitySorted(ds: seq<Destination>, nameLe: (Destination, Destination) -> bool)
    ensures forall i, j :: 0 <= i < j < |InsertionSort(ds, ComparatorFor("popularity", nameLe))| ==>
              PopularityKey(InsertionSort(ds, ComparatorFor("popularity", nameLe))[i])
              >= PopularityKey(InsertionSort(ds, ComparatorFor("popularity", nameLe))[j])
  {
    DescendingIsPreorder(PopularityKeyOf());
    InsertionSortSorted(ds, Descending(PopularityKeyOf()));
  }

  /** "name" and any value the switch does not know sort by the name order. */
  lemma OtherModesSortByName(ds: seq<Destination>, sortBy: string, nameLe: (Destination, Destination) -> bool)
    requires sortBy !in SortModes && TotalPreorder(nameLe)
    ensures InsertionSort(ds, ComparatorFor(sortBy, nameLe)) == InsertionSort(ds, nameLe)
    ensures SortedBy(InsertionSort(ds, ComparatorFor(sortBy, nameLe)), nameLe)
  {
    InsertionSortSorted(ds, nameLe);
  }

  function KeyIs(key: Destination -> int, k: int): Destination -> bool {
    d => key(d) == k
  }

  /**
   * The key orders are stable: destinations with the same key value keep
   * their input order.
   */
  lemma KeyOrderStable(ds: seq<Destination>, sortBy: string, nameLe: (Destination, Destination) -> bool,
                       key: Destination -> int, k: int)
    requires sortBy in SortModes
    requires key == (if sortBy in ["price-low", "price-high"] then PriceKeyOf()
                     else if sortBy == "rating" then RatingKeyOf()
                     else if sortBy == "duration" then DurationKeyOf()
                     else PopularityKeyOf())
    ensures Filter(InsertionSort(ds, ComparatorFor(sortBy, nameLe)), KeyIs(key, k)) == Filter(ds, KeyIs(key, k))
  {
    var le := ComparatorFor(sortBy, nameLe);
    if sortBy == "price-low" || sortBy == "duration" {
      AscendingIsPreorder(key);
      assert le == Ascending(key);
    } else {
      DescendingIsPreorder(key);
      assert le == Descending(key);
    }
    InsertionSortKeepsClass(ds, le, KeyIs(key, k));
  }

  /** The name order is stable too: names that compare equal keep their input order. */
  lemma NameOrderStable(ds: seq<Destination>, sortBy: string, nameLe: (Destination, Destination) -> bool, z: Destination)
    requires sortBy !in SortModes && TotalPreorder(nameLe)
    ensures Filter(InsertionSort(ds, ComparatorFor(sortBy, nameLe)), EquivTo(nameLe, z)) == Filter(ds, EquivTo(nameLe, z))
  {
    InsertionSortStable(ds, nameLe, z);
  }

  /** A list already in the chosen order comes back exactly as it was. */
  lemma SortedInputUnchanged(ds: seq<Destination>, sortBy: string, nameLe: (Destination, Destination) -> bool)
    requires SortedBy(ds, ComparatorFor(sortBy, nameLe))
    ensures InsertionSort(ds, ComparatorFor(sortBy, nameLe)) == ds
  {
    InsertionSortOfSorted(ds, ComparatorFor(sortBy, nameLe));
  }
}

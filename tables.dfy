/**
 * The table logic of the storage layer (server/storage.ts) as functions on
 * rows held in sequences: the lookups behind the uniqueness and duplicate
 * checks, the row updates, the per-destination booking statistics, the
 * review statistics and the newest-first log listing.  Table order stands in
 * for the order in which the database returns rows when a query has no
 * ORDER BY.
 */
module Tables {
  import opened Wrappers
  import opened Seqs
  import opened Schema

  // ---------------------------------------------------------------- destinations

  /** JavaScript truthiness of an optional string: present and not empty. */
  predicate Truthy(s: Option<string>) {
    s.Some? && s.value != ""
  }

  /** `imageUrl = url`, and `id != excludeId` when `excludeId` is truthy (not 0). */
  predicate HoldsImage(d: Destination, url: string, excludeId: int) {
    d.imageUrl == Some(url) && (excludeId == 0 || d.id != excludeId)
  }

  /** `checkImageUrlExists(url, excludeId)`: the first row holding the URL, or null. */
  function ImageHolder(ds: seq<Destination>, url: string, excludeId: int): (r: Option<Destination>)
    ensures r.Some? ==> r.value in ds && HoldsImage(r.value, url, excludeId)
    ensures r.None? <==> forall i :: 0 <= i < |ds| ==> !HoldsImage(ds[i], url, excludeId)
  {
    FindFirst(ds, (d: Destination) => HoldsImage(d, url, excludeId))
  }

  /** The error `createDestination` and `updateDestination` raise. */
  function ConflictMessage(name: string): string {
    "Image URL already in use by destination: " + name
  }

  /** No two rows share a non-empty image URL. */
  predicate UniqueImageUrls(ds: seq<Destination>) {
    forall i, j :: 0 <= i < |ds| && 0 <= j < |ds| && i != j && Truthy(ds[i].imageUrl) ==>
      ds[i].imageUrl != ds[j].imageUrl
  }

  predicate DistinctDestinationIds(ds: seq<Destination>) {
    forall i, j :: 0 <= i < j < |ds| ==> ds[i].id != ds[j].id
  }

  /** The inserted row: the given values with the serial id and the default timestamps. */
  function NewDestinationRow(d: Destination, id: int, now: int): Destination {
    d.(id := id, createdAt := now, updatedAt := now)
  }

  /** Appending a row whose URL nobody holds keeps the URLs unique. */
  lemma CreateKeepsUrlsUnique(ds: seq<Destination>, row: Destination)
    requires UniqueImageUrls(ds)
    requires Truthy(row.imageUrl) ==> ImageHolder(ds, row.imageUrl.value, 0).None?
    ensures UniqueImageUrls(ds + [row])
  {
    var r := ds + [row];
    forall i, j | 0 <= i < |r| && 0 <= j < |r| && i != j && Truthy(r[i].imageUrl)
      ensures r[i].imageUrl != r[j].imageUrl
    {
      if i == |ds| {
        assert !HoldsImage(ds[j], row.imageUrl.value, 0);
      } else if j == |ds| && Truthy(row.imageUrl) {
        assert !HoldsImage(ds[i], row.imageUrl.value, 0);
      }
    }
  }

  /** `Partial<InsertDestination>`: the columns an update may set; `None` leaves a column alone. */
  datatype DestinationPatch = DestinationPatch(
    name: Option<string>,
    country: Option<string>,
    description: Option<string>,
    price: Option<string>,
    originalPrice: Option<string>,
    duration: Option<int>,
    maxGuests: Option<int>,
    rating: Option<Option<int>>,
    imageUrl: Option<Option<string>>,
    isActive: Option<bool>,
    promoTag: Option<string>,
    discountPercentage: Option<int>,
    seasonalTag: Option<string>,
    flashSale: Option<bool>,
    couponCode: Option<string>,
    groupDiscountMin: Option<int>,
    loyaltyDiscount: Option<int>,
    bundleDeal: Option<string>)

  function Pick<T>(given: Option<T>, current: T): T {
    if given.Some? then given.value else current
  }

  /** `set({ ...patch, updatedAt: now })` on one row. */
  function ApplyPatch(d: Destination, p: DestinationPatch, now: int): Destination {
    d.(name := Pick(p.name, d.name),
       country := Pick(p.country, d.country),
       description := Pick(p.description, d.description),
       price := Pick(p.price, d.price),
       originalPrice := Pick(p.originalPrice, d.originalPrice),
       duration := Pick(p.duration, d.duration),
       maxGuests := Pick(p.maxGuests, d.maxGuests),
       rating := Pick(p.rating, d.rating),
       imageUrl := Pick(p.imageUrl, d.imageUrl),
       isActive := Pick(p.isActive, d.isActive),
       promoTag := Pick(p.promoTag, d.promoTag),
       discountPercentage := Pick(p.discountPercentage, d.discountPercentage),
       seasonalTag := Pick(p.seasonalTag, d.seasonalTag),
       flashSale := Pick(p.flashSale, d.flashSale),
       couponCode := Pick(p.couponCode, d.couponCode),
       groupDiscountMin := Pick(p.groupDiscountMin, d.groupDiscountMin),
       loyaltyDiscount := Pick(p.loyaltyDiscount, d.loyaltyDiscount),
       bundleDeal := Pick(p.bundleDeal, d.bundleDeal),
       updatedAt := now)
  }

  /** `update(...).set(...).where(eq(id, id))`: every row with that id is patched, the others are kept. */
  function PatchRows(ds: seq<Destination>, id: int, p: DestinationPatch, now: int): (r: seq<Destination>)
    ensures |r| == |ds|
  {
    seq(|ds|, i requires 0 <= i < |ds| => if ds[i].id == id then ApplyPatch(ds[i], p, now) else ds[i])
  }

  /** Row `id` becomes its patched version and keeps its id; every other row is kept exactly. */
  lemma PatchKeepsOtherRows(ds: seq<Destination>, id: int, p: DestinationPatch, now: int)
    ensures |PatchRows(ds, id, p, now)| == |ds|
    ensures forall i :: 0 <= i < |ds| ==>
              var r := PatchRows(ds, id, p, now)[i];
              && r.id == ds[i].id
              && (ds[i].id == id ==> r == ApplyPatch(ds[i], p, now) && r.updatedAt == now)
              && (ds[i].id != id ==> r == ds[i])
  {
  }

  /** The URL an update asks to be checked: a truthy `imageUrl` in the patch. */
  function CheckedUrl(p: DestinationPatch): Option<string> {
    if p.imageUrl.Some? && Truthy(p.imageUrl.value) then p.imageUrl.value else None
  }

  /** The first row with the given id (`returning()` of a one-row update, or `[row] = select ...`). */
  function RowWithId(ds: seq<Destination>, id: int): (r: Option<Destination>)
    ensures r.Some? ==> r.value in ds && r.value.id == id
    ensures r.None? <==> forall i :: 0 <= i < |ds| ==> ds[i].id != id
  {
    FindFirst(ds, (d: Destination) => d.id == id)
  }

  /**
   * An update that passed the check keeps the URLs unique: the patched row
   * either keeps its URL or takes one that no other row holds.
   */
  lemma PatchKeepsUrlsUnique(ds: seq<Destination>, id: int, p: DestinationPatch, now: int)
    requires UniqueImageUrls(ds) && DistinctDestinationIds(ds)
    requires CheckedUrl(p).Some? ==> ImageHolder(ds, CheckedUrl(p).value, id).None?
    ensures UniqueImageUrls(PatchRows(ds, id, p, now))
  {
    var r := PatchRows(ds, id, p, now);
    forall i, j | 0 <= i < |r| && 0 <= j < |r| && i != j && Truthy(r[i].imageUrl)
      ensures r[i].imageUrl != r[j].imageUrl
    {
      DistinctIdsDiffer(ds, i, j);
      if ds[i].id == id && p.imageUrl.Some? {
        assert CheckedUrl(p) == r[i].imageUrl;
        assert !HoldsImage(ds[j], r[i].imageUrl.value, id);
      } else if ds[j].id == id && p.imageUrl.Some? && Truthy(p.imageUrl.value) {
        assert !HoldsImage(ds[i], p.imageUrl.value.value, id);
      }
    }
  }

  lemma DistinctIdsDiffer(ds: seq<Destination>, i: nat, j: nat)
    requires DistinctDestinationIds(ds) && i < |ds| && j < |ds| && i != j
    ensures ds[i].id != ds[j].id
  {
    if j < i {
      assert ds[j].id != ds[i].id;
    }
  }

  /** A row that submits its own URL again passes the check, whatever other rows hold. */
  lemma OwnUrlPassesCheck(ds: seq<Destination>, k: nat, url: string)
    requires UniqueImageUrls(ds) && k < |ds| && ds[k].id != 0
    requires ds[k].imageUrl == Some(url) && url != ""
    ensures ImageHolder(ds, url, ds[k].id).None?
  {
    forall i | 0 <= i < |ds| ensures !HoldsImage(ds[i], url, ds[k].id) {
      if i != k {
        assert ds[k].imageUrl != ds[i].imageUrl;
      }
    }
  }

  predicate IsActiveRow(d: Destination) {
    d.isActive
  }

  function ActiveRow(): Destination -> bool {
    d => IsActiveRow(d)
  }

  /** `orderBy(desc(rating))`: PostgreSQL puts NULL ratings first in descending order. */
  predicate RatedAbove(a: Destination, b: Destination) {
    a.rating.None? || (b.rating.Some? && a.rating.value >= b.rating.value)
  }

  function RatingDescending(): (Destination, Destination) -> bool {
    (a: Destination, b: Destination) => RatedAbove(a, b)
  }

  lemma RatingDescendingIsPreorder()
    ensures TotalPreorder(RatingDescending())
  {
    var le := RatingDescending();
    forall x: Destination, y: Destination ensures le(x, y) || le(y, x) {
      assert RatedAbove(x, y) || RatedAbove(y, x);
    }
  }

  /**
   * `where(eq(isActive, true)).orderBy(desc(rating))`: exactly the active
   * rows, rated ones in non-increasing order after the unrated ones, ties in
   * table order.
   */
  function ActiveByRating(ds: seq<Destination>): (r: seq<Destination>)
    ensures multiset(r) == multiset(Filter(ds, ActiveRow()))
    ensures forall i :: 0 <= i < |r| ==> r[i].isActive
    ensures SortedBy(r, RatingDescending())
  {
    var active := Filter(ds, ActiveRow());
    InsertionSortPermutes(active, RatingDescending());
    RatingDescendingIsPreorder();
    InsertionSortSorted(active, RatingDescending());
    PermutedFilterSatisfies(ds, ActiveRow(), InsertionSort(active, RatingDescending()));
    InsertionSort(active, RatingDescending())
  }

  // ---------------------------------------------------------------- bookings

  /** The four equalities of the duplicate query. */
  predicate SameTrip(b: Booking, userId: string, destinationId: int, checkIn: string, checkOut: string) {
    b.userId == userId && b.destinationId == destinationId && b.checkIn == checkIn && b.checkOut == checkOut
  }

  function TripOf(userId: string, destinationId: int, checkIn: string, checkOut: string): Booking -> bool {
    b => SameTrip(b, userId, destinationId, checkIn, checkOut)
  }

  function NotCancelled(): Booking -> bool {
    (b: Booking) => b.status != Cancelled
  }

  /**
   * `checkDuplicateBooking`: the bookings for that exact trip, minus the
   * cancelled ones, are not empty.
   */
  function HasActiveDuplicate(bs: seq<Booking>, userId: string, destinationId: int, checkIn: string, checkOut: string)
    : (r: bool)
    ensures r <==> exists i :: 0 <= i < |bs| && SameTrip(bs[i], userId, destinationId, checkIn, checkOut)
                                              && bs[i].status != Cancelled
  {
    var existing := Filter(bs, TripOf(userId, destinationId, checkIn, checkOut));
    var active := Filter(existing, NotCancelled());
    ActiveDuplicateWitness(bs, existing, active, userId, destinationId, checkIn, checkOut);
    |active| > 0
  }

  lemma ActiveDuplicateWitness(bs: seq<Booking>, existing: seq<Booking>, active: seq<Booking>,
                               userId: string, destinationId: int, checkIn: string, checkOut: string)
    requires existing == Filter(bs, TripOf(userId, destinationId, checkIn, checkOut))
    requires active == Filter(existing, NotCancelled())
    ensures |active| > 0 <==> exists i :: 0 <= i < |bs| && SameTrip(bs[i], userId, destinationId, checkIn, checkOut)
                                                         && bs[i].status != Cancelled
  {
    if |active| > 0 {
      var b := active[0];
      FilterMember(existing, NotCancelled(), b);
      FilterMember(bs, TripOf(userId, destinationId, checkIn, checkOut), b);
    }
    if i :| 0 <= i < |bs| && SameTrip(bs[i], userId, destinationId, checkIn, checkOut) && bs[i].status != Cancelled {
      FilterMember(bs, TripOf(userId, destinationId, checkIn, checkOut), bs[i]);
      FilterMember(existing, NotCancelled(), bs[i]);
    }
  }

  function NewBookingRow(b: Booking, id: int, now: int): Booking {
    b.(id := id, createdAt := now, updatedAt := now)
  }

  /** `cancelBooking`: `set({ status: "cancelled", updatedAt: now })` on the rows with that id. */
  function CancelRows(bs: seq<Booking>, id: int, now: int): (r: seq<Booking>)
    ensures |r| == |bs|
  {
    seq(|bs|, i requires 0 <= i < |bs| => if bs[i].id == id then bs[i].(status := Cancelled, updatedAt := now) else bs[i])
  }

  /**
   * Cancelling never removes a row, changes only the cancelled row's status
   * and timestamp, and keeps every trip field.
   */
  lemma CancelKeepsRows(bs: seq<Booking>, id: int, now: int)
    ensures |CancelRows(bs, id, now)| == |bs|
    ensures forall i :: 0 <= i < |bs| ==>
              var r := CancelRows(bs, id, now)[i];
              && r.id == bs[i].id && r.userId == bs[i].userId && r.destinationId == bs[i].destinationId
              && r.checkIn == bs[i].checkIn && r.checkOut == bs[i].checkOut && r.totalAmount == bs[i].totalAmount
              && (bs[i].id == id ==> r == bs[i].(status := Cancelled, updatedAt := now))
              && (bs[i].id != id ==> r == bs[i])
  {
  }

  /** Cancelling the only live booking for a trip makes the duplicate check come back false. */
  lemma CancelClearsDuplicate(bs: seq<Booking>, id: int, now: int,
                              userId: string, destinationId: int, checkIn: string, checkOut: string)
    requires forall i :: (0 <= i < |bs| && SameTrip(bs[i], userId, destinationId, checkIn, checkOut)
                          && bs[i].status != Cancelled) ==> bs[i].id == id
    ensures !HasActiveDuplicate(CancelRows(bs, id, now), userId, destinationId, checkIn, checkOut)
  {
    var r := CancelRows(bs, id, now);
    forall i | 0 <= i < |r| && SameTrip(r[i], userId, destinationId, checkIn, checkOut)
      ensures r[i].status == Cancelled
    {
    }
  }

  /** A cancelled booking is never reported as a duplicate. */
  lemma CancelledTripIsNoDuplicate(bs: seq<Booking>, userId: string, destinationId: int, checkIn: string, checkOut: string)
    requires forall i :: 0 <= i < |bs| && SameTrip(bs[i], userId, destinationId, checkIn, checkOut)
                         ==> bs[i].status == Cancelled
    ensures !HasActiveDuplicate(bs, userId, destinationId, checkIn, checkOut)
  {
  }

  // ---------------------------------------------------------------- booking statistics

  /** One row of `select destinationId, count(*), sum(totalAmount) ... groupBy(destinationId)`. */
  datatype Stat = Stat(destinationId: int, bookingCount: nat, revenue: int)

  /** Counts one booking into its destination's group, opening the group if needed. */
  function AddTo(gs: seq<Stat>, b: Booking): seq<Stat> {
    if gs == [] then [Stat(b.destinationId, 1, b.totalAmount)]
    else if gs[0].destinationId == b.destinationId then
      [Stat(b.destinationId, gs[0].bookingCount + 1, gs[0].revenue + b.totalAmount)] + gs[1..]
    else [gs[0]] + AddTo(gs[1..], b)
  }

  /** The grouped query over the bookings table. */
  function Tally(bs: seq<Booking>): seq<Stat> {
    if bs == [] then [] else AddTo(Tally(bs[..|bs| - 1]), bs[|bs| - 1])
  }

  /** `bookingStats.find(s => s.destinationId === id)`. */
  function FindStat(gs: seq<Stat>, id: int): (r: Option<Stat>)
    ensures r.Some? ==> r.value.destinationId == id
  {
    if gs == [] then None else if gs[0].destinationId == id then Some(gs[0]) else FindStat(gs[1..], id)
  }

  function ForDestination(id: int): Booking -> bool {
    (b: Booking) => b.destinationId == id
  }

  /** The sum of the bookings' `totalAmount`. */
  function TotalAmount(bs: seq<Booking>): int {
    if bs == [] then 0 else TotalAmount(bs[..|bs| - 1]) + bs[|bs| - 1].totalAmount
  }

  lemma {:induction false} FindAfterAdd(gs: seq<Stat>, b: Booking, id: int)
    ensures FindStat(AddTo(gs, b), id)
         == if b.destinationId != id then FindStat(gs, id)
            else if FindStat(gs, id).None? then Some(Stat(id, 1, b.totalAmount))
            else Some(Stat(id, FindStat(gs, id).value.bookingCount + 1, FindStat(gs, id).value.revenue + b.totalAmount))
  {
    if gs != [] && gs[0].destinationId != b.destinationId {
      FindAfterAdd(gs[1..], b, id);
      assert AddTo(gs, b)[1..] == AddTo(gs[1..], b);
    } else if gs != [] {
      assert AddTo(gs, b)[1..] == gs[1..];
    }
  }

  /**
   * The grouped query finds, for a destination, the number of its bookings
   * and the sum of their amounts; it finds nothing for a destination without
   * bookings.
   */
  lemma {:induction false} TallyFinds(bs: seq<Booking>, id: int)
    ensures FindStat(Tally(bs), id)
         == if |Filter(bs, ForDestination(id))| == 0 then None
            else Some(Stat(id, |Filter(bs, ForDestination(id))|, TotalAmount(Filter(bs, ForDestination(id)))))
  {
    if bs != [] {
      var front, last := bs[..|bs| - 1], bs[|bs| - 1];
      TallyFinds(front, id);
      FindAfterAdd(Tally(front), last, id);
      var kept := Filter(front, ForDestination(id));
      assert bs[..|bs| - 1] == front;
      if last.destinationId == id {
        assert Filter(bs, ForDestination(id)) == kept + [last];
        assert (kept + [last])[..|kept + [last]| - 1] == kept;
        assert TotalAmount(kept + [last]) == TotalAmount(kept) + last.totalAmount;
      } else {
        assert Filter(bs, ForDestination(id)) == kept;
      }
    }
  }

  /** `DestinationWithStats`: a destination row with its booking count and revenue. */
  datatype DestinationWithStats = DestinationWithStats(destination: Destination, bookingCount: nat, revenue: int)

  /** `getDestinationsWithStats`: every row, active or not, with `stats?.bookingCount || 0` and `stats?.revenue || "0"`. */
  function WithStats(ds: seq<Destination>, bs: seq<Booking>): (r: seq<DestinationWithStats>)
    ensures |r| == |ds|
  {
    var groups := Tally(bs);
    seq(|ds|, i requires 0 <= i < |ds| =>
      var st := FindStat(groups, ds[i].id);
      DestinationWithStats(ds[i], if st.Some? then st.value.bookingCount else 0, if st.Some? then st.value.revenue else 0))
  }

  /**
   * One entry per destination, in table order; each counts all bookings of
   * that destination, cancelled ones included, and sums their amounts, with
   * 0 for a destination nobody booked.
   */
  lemma WithStatsCounts(ds: seq<Destination>, bs: seq<Booking>)
    ensures |WithStats(ds, bs)| == |ds|
    ensures forall i :: 0 <= i < |ds| ==>
              && WithStats(ds, bs)[i].destination == ds[i]
              && WithStats(ds, bs)[i].bookingCount == |Filter(bs, ForDestination(ds[i].id))|
              && WithStats(ds, bs)[i].revenue == TotalAmount(Filter(bs, ForDestination(ds[i].id)))
  {
    forall i | 0 <= i < |ds|
      ensures WithStats(ds, bs)[i].bookingCount == |Filter(bs, ForDestination(ds[i].id))|
      ensures WithStats(ds, bs)[i].revenue == TotalAmount(Filter(bs, ForDestination(ds[i].id)))
    {
      TallyFinds(bs, ds[i].id);
    }
  }

  // ---------------------------------------------------------------- users

  /** `getUserByUsername`: the first row with that username. */
  function UserByName(us: seq<User>, username: string): (r: Option<User>)
    ensures r.Some? ==> r.value in us && r.value.username == username
    ensures r.None? <==> forall i :: 0 <= i < |us| ==> us[i].username != username
  {
    FindFirst(us, (u: User) => u.username == username)
  }

  /** `updateUserLastLogin`: `lastLoginAt := now` on the rows with that id. */
  function SetLastLogin(us: seq<User>, id: string, now: int): (r: seq<User>)
    ensures |r| == |us|
  {
    seq(|us|, i requires 0 <= i < |us| => if us[i].id == id then us[i].(lastLoginAt := Some(now)) else us[i])
  }

  /** Only `lastLoginAt` of the rows with that id changes; every other row is kept exactly. */
  lemma SetLastLoginKeepsOtherRows(us: seq<User>, id: string, now: int)
    ensures |SetLastLogin(us, id, now)| == |us|
    ensures forall i :: 0 <= i < |us| ==>
              var r := SetLastLogin(us, id, now)[i];
              && r.id == us[i].id && r.username == us[i].username && r.password == us[i].password
              && r.role == us[i].role && r.createdAt == us[i].createdAt && r.updatedAt == us[i].updatedAt
              && (us[i].id == id ==> r.lastLoginAt == Some(now))
              && (us[i].id != id ==> r == us[i])
  {
  }

  /** After a login the next lookup of the same username sees the new `lastLoginAt`. */
  lemma {:induction false} LoginIsVisible(us: seq<User>, username: string, now: int)
    requires UserByName(us, username).Some?
    ensures UserByName(SetLastLogin(us, UserByName(us, username).value.id, now), username)
         == Some(UserByName(us, username).value.(lastLoginAt := Some(now)))
  {
    var u := UserByName(us, username).value;
    var r := SetLastLogin(us, u.id, now);
    if us[0].username != username {
      LoginIsVisible(us[1..], username, now);
      assert r[1..] == SetLastLogin(us[1..], u.id, now);
    }
  }

  /** An update of the last login changes no username and no password. */
  lemma SetLastLoginKeepsCredentials(us: seq<User>, id: string, now: int, username: string)
    ensures UserByName(SetLastLogin(us, id, now), username).Some? == UserByName(us, username).Some?
  {
    var r := SetLastLogin(us, id, now);
    assert forall i :: 0 <= i < |us| ==> r[i].username == us[i].username;
  }

  // ---------------------------------------------------------------- activity logs

  function NewLogRow(log: ActivityLog, id: int, now: int): ActivityLog {
    log.(id := id, createdAt := now)
  }

  /** `orderBy(desc(createdAt))`. */
  function NewestFirst(): (ActivityLog, ActivityLog) -> bool {
    (a: ActivityLog, b: ActivityLog) => a.createdAt >= b.createdAt
  }

  function Min(a: nat, b: nat): nat {
    if a <= b then a else b
  }

  /**
   * `getActivityLogs(limit)`: at most `limit` entries (all of them when there
   * are fewer), newest first, and no entry left out is newer than one
   * returned.
   */
  function RecentLogs(logs: seq<ActivityLog>, limit: nat): (r: seq<ActivityLog>)
    ensures |r| == Min(limit, |logs|)
    ensures multiset(r) <= multiset(logs)
    ensures SortedBy(r, NewestFirst())
    ensures forall y, i :: y in multiset(logs) - multiset(r) && 0 <= i < |r| ==> y.createdAt <= r[i].createdAt
  {
    var sorted := InsertionSort(logs, NewestFirst());
    var k := Min(limit, |sorted|);
    InsertionSortPermutes(logs, NewestFirst());
    InsertionSortSorted(logs, NewestFirst());
    assert sorted == sorted[..k] + sorted[k..];
    SortedPrefixDominates(sorted, NewestFirst(), k);
    sorted[..k]
  }

  // ---------------------------------------------------------------- reviews

  function NewReviewRow(rv: Review, id: int, now: int): Review {
    rv.(id := id, createdAt := now, updatedAt := now)
  }

  function ForReviewedDestination(id: int): Review -> bool {
    (rv: Review) => rv.destinationId == id
  }

  function RatingSum(rs: seq<Review>): int {
    if rs == [] then 0 else RatingSum(rs[..|rs| - 1]) + rs[|rs| - 1].rating
  }

  /**
   * `ROUND(sum / count, 1)` in tenths: the nearest tenth of the mean, halves
   * rounded away from zero as PostgreSQL rounds numerics.
   */
  function RoundedMeanTenths(sum: int, count: nat): (r: int)
    requires count > 0
    ensures sum >= 0 ==> 20 * sum - count < 2 * count * r <= 20 * sum + count
    ensures sum < 0 ==> 20 * sum - count <= 2 * count * r < 20 * sum + count
  {
    if sum >= 0 then (20 * sum + count) / (2 * count) else -((-20 * sum + count) / (2 * count))
  }

  /** `{ averageRating, totalReviews }`, the average in tenths. */
  datatype ReviewStats = ReviewStats(averageRating: int, totalReviews: nat)

  /** `getReviewStats`: `AVG` and `count` over the destination's reviews, `|| 0` when there are none. */
  function ReviewStatsOf(rs: seq<Review>, destinationId: int): (r: ReviewStats)
    ensures r.totalReviews == |Filter(rs, ForReviewedDestination(destinationId))|
    ensures r.totalReviews == 0 ==> r.averageRating == 0
    ensures r.totalReviews > 0 ==>
              r.averageRating == RoundedMeanTenths(RatingSum(Filter(rs, ForReviewedDestination(destinationId))), r.totalReviews)
  {
    var mine := Filter(rs, ForReviewedDestination(destinationId));
    if |mine| == 0 then ReviewStats(0, 0) else ReviewStats(RoundedMeanTenths(RatingSum(mine), |mine|), |mine|)
  }

  lemma {:induction false} RatingSumBounds(rs: seq<Review>, lo: int, hi: int)
    requires forall i :: 0 <= i < |rs| ==> lo <= rs[i].rating <= hi
    ensures lo * |rs| <= RatingSum(rs) <= hi * |rs|
  {
    if rs != [] {
      RatingSumBounds(rs[..|rs| - 1], lo, hi);
    }
  }

  /** With ratings from 1 to 5 stars the average lies between 1.0 and 5.0. */
  lemma ReviewAverageInRange(rs: seq<Review>, destinationId: int)
    requires forall i :: 0 <= i < |rs| ==> 1 <= rs[i].rating <= 5
    requires ReviewStatsOf(rs, destinationId).totalReviews > 0
    ensures 10 <= ReviewStatsOf(rs, destinationId).averageRating <= 50
  {
    var mine := Filter(rs, ForReviewedDestination(destinationId));
    forall i | 0 <= i < |mine| ensures 1 <= mine[i].rating <= 5 {
      assert mine[i] in mine;
      FilterMember(rs, ForReviewedDestination(destinationId), mine[i]);
    }
    RatingSumBounds(mine, 1, 5);
    MeanTenthsInRange(RatingSum(mine), |mine|);
  }

  lemma MeanTenthsInRange(sum: int, count: nat)
    requires count > 0 && count <= sum <= 5 * count
    ensures 10 <= RoundedMeanTenths(sum, count) <= 50
  {
    var r := RoundedMeanTenths(sum, count);
    assert count * (2 * r - 19) == 2 * count * r - 19 * count;
    PositiveFactor(count, 2 * r - 19);
    assert count * (101 - 2 * r) == 101 * count - 2 * count * r;
    NonNegativeFactor(count, 101 - 2 * r);
  }

  // Proof steps: the one nonlinear sign fact the mean's bounds need, kept apart so
  // that the solver sees it without the surrounding arithmetic.
  lemma PositiveFactor(c: int, x: int)
    requires c > 0 && c * x > 0
    ensures x > 0
  {
  }

  lemma NonNegativeFactor(c: int, x: int)
    requires c > 0 && c * x >= 0
    ensures x >= 0
  {
  }
}

/**
 * `DatabaseStorage` (server/storage.ts) as an in-memory store: the five
 * tables are sequences of rows in table order, and the serial id columns are
 * counters.  Methods that insert or update rows change the fields in place
 * and state the whole new state; the read queries are functions of the
 * fields.  The clock (`new Date()`) is the `now` parameter and bcrypt is the
 * `hash` and `matches` parameters.
 */
module Storage {
  import opened Wrappers
  import opened Seqs
  import opened Schema
  import opened Tables

  predicate DistinctUserIds(us: seq<User>) {
    forall i, j :: 0 <= i < j < |us| ==> us[i].id != us[j].id
  }

  predicate DistinctBookingIds(bs: seq<Booking>) {
    forall i, j :: 0 <= i < j < |bs| ==> bs[i].id != bs[j].id
  }

  /** The row with that primary key, if any. */
  function UserWithId(us: seq<User>, id: string): (r: Option<User>)
    ensures r.Some? ==> r.value in us && r.value.id == id
    ensures r.None? <==> forall i :: 0 <= i < |us| ==> us[i].id != id
  {
    FindFirst(us, (u: User) => u.id == id)
  }

  /** The error PostgreSQL raises when an insert repeats a user id. */
  const DuplicateUserKey: string := "duplicate key value violates unique constraint \"users_pkey\""

  /** `createUser`'s row: a truthy password is replaced by its hash. */
  function NewUserRow(u: User, hash: string -> string, now: int): User {
    u.(password := if u.password != "" then hash(u.password) else u.password, createdAt := now, updatedAt := now)
  }

  class DatabaseStorage {
    var users: seq<User>
    var destinations: seq<Destination>
    var bookings: seq<Booking>
    var activityLogs: seq<ActivityLog>
    var reviews: seq<Review>
    /** The next values of the serial id columns. */
    var nextDestinationId: int
    var nextBookingId: int
    var nextLogId: int
    var nextReviewId: int

    /**
     * What the store keeps true: no two destinations share a non-empty image
     * URL, and the primary keys are distinct, the serial ones below their
     * counter.
     */
    ghost predicate Valid()
      reads this
    {
      && 1 <= nextDestinationId && 1 <= nextBookingId
      && UniqueImageUrls(destinations)
      && DistinctDestinationIds(destinations)
      && (forall i :: 0 <= i < |destinations| ==> 1 <= destinations[i].id < nextDestinationId)
      && DistinctBookingIds(bookings)
      && (forall i :: 0 <= i < |bookings| ==> 1 <= bookings[i].id < nextBookingId)
      && DistinctUserIds(users)
    }

    twostate predicate KeepsUsers()
      reads this
    {
      users == old(users)
    }

    twostate predicate KeepsDestinations()
      reads this
    {
      destinations == old(destinations) && nextDestinationId == old(nextDestinationId)
    }

    twostate predicate KeepsBookings()
      reads this
    {
      bookings == old(bookings) && nextBookingId == old(nextBookingId)
    }

    twostate predicate KeepsLogs()
      reads this
    {
      activityLogs == old(activityLogs) && nextLogId == old(nextLogId)
    }

    twostate predicate KeepsReviews()
      reads this
    {
      reviews == old(reviews) && nextReviewId == old(nextReviewId)
    }

    /** An empty database whose serial columns start at 1. */
    constructor()
      ensures Valid()
      ensures users == [] && destinations == [] && bookings == [] && activityLogs == [] && reviews == []
      ensures nextDestinationId == 1 && nextBookingId == 1 && nextLogId == 1 && nextReviewId == 1
    {
      users := [];
      destinations := [];
      bookings := [];
      activityLogs := [];
      reviews := [];
      nextDestinationId := 1;
      nextBookingId := 1;
      nextLogId := 1;
      nextReviewId := 1;
    }

    // ------------------------------------------------------------ users

    /** `getUserByUsername`: the first row with that username, or nothing. */
    function GetUserByUsername(username: string): (r: Option<User>)
      reads this
      ensures r.Some? ==> r.value in users && r.value.username == username
      ensures r.None? <==> forall i :: 0 <= i < |users| ==> users[i].username != username
    {
      UserByName(users, username)
    }

    /** `createUser`: inserts the row with its password hashed; a repeated id is rejected by the primary key. */
    method CreateUser(userData: User, hash: string -> string, now: int) returns (r: Result<User, string>)
      requires Valid()
      modifies this
      ensures Valid()
      ensures if exists i :: 0 <= i < |old(users)| && old(users)[i].id == userData.id
              then r == Failure(DuplicateUserKey) && unchanged(this)
              else r == Success(NewUserRow(userData, hash, now)) && users == old(users) + [r.value]
      ensures KeepsDestinations() && KeepsBookings() && KeepsLogs() && KeepsReviews()
    {
      if UserWithId(users, userData.id).Some? {
        r := Failure(DuplicateUserKey);
        return;
      }
      var row := NewUserRow(userData, hash, now);
      users := users + [row];
      r := Success(row);
    }

    /** `updateUserLastLogin`: stamps `lastLoginAt` on the user with that id. */
    method UpdateUserLastLogin(id: string, now: int)
      requires Valid()
      modifies this
      ensures Valid()
      ensures users == SetLastLogin(old(users), id, now)
      ensures KeepsDestinations() && KeepsBookings() && KeepsLogs() && KeepsReviews()
    {
      users := SetLastLogin(users, id, now);
    }

    /**
     * `authenticateUser`: a known user with a password whose hash matches is
     * returned, as read before the login, and only then is its `lastLoginAt`
     * stamped; otherwise nothing is returned and nothing changes.
     */
    method AuthenticateUser(username: string, password: string, matches: (string, string) -> bool, now: int)
      returns (r: Option<User>)
      requires Valid()
      modifies this
      ensures Valid()
      ensures var u := UserByName(old(users), username);
              if u.Some? && u.value.password != "" && matches(password, u.value.password)
              then r == u && users == SetLastLogin(old(users), u.value.id, now)
              else r.None? && users == old(users)
      ensures KeepsDestinations() && KeepsBookings() && KeepsLogs() && KeepsReviews()
    {
      var user := GetUserByUsername(username);
      if user.None? || user.value.password == "" {
        return None;
      }
      if !matches(password, user.value.password) {
        return None;
      }
      UpdateUserLastLogin(user.value.id, now);
      r := user;
    }

    // ------------------------------------------------------------ destinations

    /**
     * `checkImageUrlExists(imageUrl, excludeId)`: a row holding the URL, other
     * than `excludeId` when that is truthy; nothing exactly when there is none.
     */
    function CheckImageUrlExists(imageUrl: string, excludeId: int := 0): (r: Option<Destination>)
      reads this
      ensures r.Some? ==> r.value in destinations && r.value.imageUrl == Some(imageUrl)
                          && (excludeId != 0 ==> r.value.id != excludeId)
      ensures r.None? <==> forall i :: 0 <= i < |destinations| ==>
                             !(destinations[i].imageUrl == Some(imageUrl)
                               && (excludeId == 0 || destinations[i].id != excludeId))
    {
      ImageHolder(destinations, imageUrl, excludeId)
    }

    /** `getDestination`: the row with that id, or nothing. */
    function GetDestination(id: int): (r: Option<Destination>)
      reads this
      ensures r.Some? ==> r.value in destinations && r.value.id == id
      ensures r.None? <==> forall i :: 0 <= i < |destinations| ==> destinations[i].id != id
    {
      RowWithId(destinations, id)
    }

    /**
     * `createDestination`: a non-empty image URL that some row already holds
     * is refused with an error naming that row and nothing changes; otherwise
     * exactly one row is appended under the next serial id.
     */
    method CreateDestination(d: Destination, now: int) returns (r: Result<Destination, string>)
      requires Valid()
      modifies this
      ensures Valid()
      ensures if Truthy(d.imageUrl) && ImageHolder(old(destinations), d.imageUrl.value, 0).Some?
              then r == Failure(ConflictMessage(ImageHolder(old(destinations), d.imageUrl.value, 0).value.name))
                   && unchanged(this)
              else && r == Success(NewDestinationRow(d, old(nextDestinationId), now))
                   && destinations == old(destinations) + [r.value]
                   && nextDestinationId == old(nextDestinationId) + 1
                   && KeepsUsers() && KeepsBookings() && KeepsLogs() && KeepsReviews()
      ensures r.Success? && Truthy(d.imageUrl) ==> CheckImageUrlExists(d.imageUrl.value).Some?
    {
      if Truthy(d.imageUrl) {
        var existing := CheckImageUrlExists(d.imageUrl.value);
        if existing.Some? {
          r := Failure(ConflictMessage(existing.value.name));
          return;
        }
      }
      var row := NewDestinationRow(d, nextDestinationId, now);
      CreateKeepsUrlsUnique(destinations, row);
      destinations := destinations + [row];
      nextDestinationId := nextDestinationId + 1;
      r := Success(row);
      if Truthy(d.imageUrl) {
        assert HoldsImage(destinations[|destinations| - 1], d.imageUrl.value, 0);
      }
    }

    /**
     * `updateDestination`: a truthy new image URL held by a row other than
     * `id` is refused and nothing changes; otherwise the given columns of the
     * row `id` are merged with `updatedAt := now`, and the updated row, if
     * there is one, is returned.
     */
    method UpdateDestination(id: int, patch: DestinationPatch, now: int) returns (r: Result<Option<Destination>, string>)
      requires Valid()
      modifies this
      ensures Valid()
      ensures if CheckedUrl(patch).Some? && ImageHolder(old(destinations), CheckedUrl(patch).value, id).Some?
              then r == Failure(ConflictMessage(ImageHolder(old(destinations), CheckedUrl(patch).value, id).value.name))
                   && unchanged(this)
              else && destinations == PatchRows(old(destinations), id, patch, now)
                   && r == Success(RowWithId(destinations, id))
                   && KeepsUsers() && KeepsBookings() && KeepsLogs() && KeepsReviews()
                   && nextDestinationId == old(nextDestinationId)
    {
      if CheckedUrl(patch).Some? {
        var existing := CheckImageUrlExists(CheckedUrl(patch).value, id);
        if existing.Some? {
          r := Failure(ConflictMessage(existing.value.name));
          return;
        }
      }
      PatchKeepsUrlsUnique(destinations, id, patch, now);
      destinations := PatchRows(destinations, id, patch, now);
      r := Success(RowWithId(destinations, id));
    }

    /**
     * `getAllDestinations`: the active rows, each as often as in the table,
     * in non-increasing rating order with unrated rows first.
     */
    function GetAllDestinations(): (r: seq<Destination>)
      reads this
      ensures multiset(r) == multiset(Filter(destinations, ActiveRow()))
      ensures forall i :: 0 <= i < |r| ==> r[i].isActive
      ensures SortedBy(r, RatingDescending())
    {
      ActiveByRating(destinations)
    }

    /**
     * `getDestinationsWithStats`: one entry per row, inactive ones too, with
     * the number of its bookings and the sum of their amounts, 0 when it has
     * none.
     */
    function GetDestinationsWithStats(): (r: seq<DestinationWithStats>)
      reads this
      ensures |r| == |destinations|
      ensures forall i :: 0 <= i < |destinations| ==>
                && r[i].destination == destinations[i]
                && r[i].bookingCount == |Filter(bookings, ForDestination(destinations[i].id))|
                && r[i].revenue == TotalAmount(Filter(bookings, ForDestination(destinations[i].id)))
    {
      WithStatsCounts(destinations, bookings);
      WithStats(destinations, bookings)
    }

    // ------------------------------------------------------------ bookings

    /** `createBooking`: appends the row under the next serial id; no check is made here. */
    method CreateBooking(booking: Booking, now: int) returns (r: Booking)
      requires Valid()
      modifies this
      ensures Valid()
      ensures r == NewBookingRow(booking, old(nextBookingId), now)
      ensures bookings == old(bookings) + [r] && nextBookingId == old(nextBookingId) + 1
      ensures KeepsUsers() && KeepsDestinations() && KeepsLogs() && KeepsReviews()
    {
      r := NewBookingRow(booking, nextBookingId, now);
      bookings := bookings + [r];
      nextBookingId := nextBookingId + 1;
    }

    /** `cancelBooking`: the booking's status becomes "cancelled"; no row is removed. */
    method CancelBooking(id: int, now: int)
      requires Valid()
      modifies this
      ensures Valid()
      ensures bookings == CancelRows(old(bookings), id, now) && |bookings| == |old(bookings)|
      ensures nextBookingId == old(nextBookingId)
      ensures KeepsUsers() && KeepsDestinations() && KeepsLogs() && KeepsReviews()
    {
      CancelKeepsRows(bookings, id, now);
      bookings := CancelRows(bookings, id, now);
    }

    /** `checkDuplicateBooking`: some booking of exactly that trip is not cancelled. */
    function CheckDuplicateBooking(userId: string, destinationId: int, checkIn: string, checkOut: string): (r: bool)
      reads this
      ensures r <==> exists i :: 0 <= i < |bookings| && SameTrip(bookings[i], userId, destinationId, checkIn, checkOut)
                                                     && bookings[i].status != Cancelled
    {
      HasActiveDuplicate(bookings, userId, destinationId, checkIn, checkOut)
    }

    // ------------------------------------------------------------ activity logs

    /** `createActivityLog`: appends the entry under the next serial id. */
    method CreateActivityLog(log: ActivityLog, now: int) returns (r: ActivityLog)
      requires Valid()
      modifies this
      ensures Valid()
      ensures r == NewLogRow(log, old(nextLogId), now)
      ensures activityLogs == old(activityLogs) + [r] && nextLogId == old(nextLogId) + 1
      ensures KeepsUsers() && KeepsDestinations() && KeepsBookings() && KeepsReviews()
    {
      r := NewLogRow(log, nextLogId, now);
      activityLogs := activityLogs + [r];
      nextLogId := nextLogId + 1;
    }

    /**
     * `getActivityLogs(limit = 50)`: at most `limit` entries, newest first,
     * none left out newer than one returned.
     */
    function GetActivityLogs(limit: nat := 50): (r: seq<ActivityLog>)
      reads this
      ensures |r| == Min(limit, |activityLogs|)
      ensures multiset(r) <= multiset(activityLogs)
      ensures SortedBy(r, NewestFirst())
      ensures forall y, i :: y in multiset(activityLogs) - multiset(r) && 0 <= i < |r| ==> y.createdAt <= r[i].createdAt
    {
      RecentLogs(activityLogs, limit)
    }

    // ------------------------------------------------------------ reviews

    /** `createReview`: appends the review under the next serial id. */
    method CreateReview(review: Review, now: int) returns (r: Review)
      requires Valid()
      modifies this
      ensures Valid()
      ensures r == NewReviewRow(review, old(nextReviewId), now)
      ensures reviews == old(reviews) + [r] && nextReviewId == old(nextReviewId) + 1
      ensures KeepsUsers() && KeepsDestinations() && KeepsBookings() && KeepsLogs()
    {
      r := NewReviewRow(review, nextReviewId, now);
      reviews := reviews + [r];
      nextReviewId := nextReviewId + 1;
    }

    /**
     * `getReviewStats`: the number of the destination's reviews and their
     * mean rating to one decimal, both 0 when it has none; with ratings of
     * 1 to 5 stars the mean is between 1.0 and 5.0.
     */
    function GetReviewStats(destinationId: int): (r: ReviewStats)
      reads this
      ensures r.totalReviews == |Filter(reviews, ForReviewedDestination(destinationId))|
      ensures r.totalReviews == 0 ==> r.averageRating == 0
      ensures r.totalReviews > 0 ==>
                r.averageRating == RoundedMeanTenths(RatingSum(Filter(reviews, ForReviewedDestination(destinationId))), r.totalReviews)
      ensures (forall i :: 0 <= i < |reviews| ==> 1 <= reviews[i].rating <= 5) && r.totalReviews > 0
              ==> 10 <= r.averageRating <= 50
    {
      if (forall i :: 0 <= i < |reviews| ==> 1 <= reviews[i].rating <= 5) && ReviewStatsOf(reviews, destinationId).totalReviews > 0 then
        ReviewAverageInRange(reviews, destinationId);
        ReviewStatsOf(reviews, destinationId)
      else
        ReviewStatsOf(reviews, destinationId)
    }
  }
}

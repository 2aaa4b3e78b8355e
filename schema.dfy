/**
 * The records of the shared schema that the browser and the storage layer
 * exchange.  Strings are `seq<char>`; timestamps are clock readings supplied
 * by the caller; decimal columns are scaled integers.
 *
 * Optional text columns that the code only tests for truthiness (`promoTag`,
 * `seasonalTag`, `couponCode`, `bundleDeal`, `originalPrice`, a user's
 * `password`) are plain strings in which the empty string also stands for
 * SQL NULL: JavaScript treats `null` and `""` alike in those tests.  Optional
 * integer columns tested with `x && x > 0` or `(x || 0) > 0` use 0 for NULL.
 * `imageUrl` is compared with SQL equality, where NULL equals nothing, so it
 * keeps an explicit `Option`.
 */
module Schema {
  import opened Wrappers

  /** A catalog entry; `rating` is in tenths of a star (the column holds one decimal). */
  datatype Destination = Destination(
    id: int,
    name: string,
    country: string,
    description: string,
    price: string,
    originalPrice: string,
    duration: int,
    maxGuests: int,
    rating: Option<int>,
    imageUrl: Option<string>,
    isActive: bool,
    promoTag: string,
    discountPercentage: int,
    seasonalTag: string,
    flashSale: bool,
    couponCode: string,
    groupDiscountMin: int,
    loyaltyDiscount: int,
    bundleDeal: string,
    createdAt: int,
    updatedAt: int)

  /** An account; `password` holds the one-way hash, or "" when none is set. */
  datatype User = User(
    id: string,
    username: string,
    password: string,
    role: string,
    createdAt: int,
    updatedAt: int,
    lastLoginAt: Option<int>)

  /** A reservation of one destination by one user; amounts are in hundredths. */
  datatype Booking = Booking(
    id: int,
    userId: string,
    destinationId: int,
    checkIn: string,
    checkOut: string,
    guests: int,
    travelClass: string,
    totalAmount: int,
    originalAmount: int,
    appliedCouponCode: string,
    status: string,
    paymentStatus: string,
    createdAt: int,
    updatedAt: int)

  /** An append-only audit entry. */
  datatype ActivityLog = ActivityLog(
    id: int,
    userId: string,
    action: string,
    details: string,
    createdAt: int)

  datatype Review = Review(
    id: int,
    destinationId: int,
    userId: string,
    rating: int,
    title: string,
    comment: string,
    createdAt: int,
    updatedAt: int)

  /** The status that `cancelBooking` writes and the duplicate check skips. */
  const Cancelled: string := "cancelled"
}

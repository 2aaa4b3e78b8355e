# Travel booking core, modelled in Dafny

This project models three parts of a travel booking site.

- **The destination browser.** It searches destinations by free text and ranks them by relevance. It narrows the result with four category filters: region, budget, duration and deals. It then shows the list in one of six sort orders.
- **The storage layer.** `DatabaseStorage` becomes an in-memory class that holds the five tables (users, destinations, bookings, activity logs, reviews) as sequences of records. Its methods enforce the layer's own rules:
  - image URLs are unique, with an exception for the row being updated;
  - a booking is a duplicate only if an uncancelled booking exists for the same trip;
  - cancelling a booking changes its status and deletes nothing;
  - the public listing shows active destinations only, best rated first;
  - bookings are counted and their revenue summed per destination;
  - a login is recorded only when the password matches.
- **The currency utility.** It covers the table of supported currencies, conversion through the US dollar, symbol and name lookups with fallbacks, and the stored display preference, which resets the old defaults.

## How the source is represented

- JavaScript's `Array.prototype.sort` is stable.
  - It is modelled as a stable insertion sort (`Seqs.InsertionSort`), with `le(a, b)` meaning "the comparator gives a result ≤ 0".
  - For a comparator that is a total preorder, this is the only stable sorted permutation of the input. Every stable sort therefore gives the same list.
  - The in-place sort of an array is `Seqs.SortInPlace`.
- The sort by name uses `localeCompare`. Its order is a parameter `nameLe`.
- `toLocaleString` is also a parameter, `toLocale(amount, decimals)`.
- Text columns that the code only tests for truthiness are plain strings, where `""` also stands for null.
- `imageUrl` is an `Option<string>`, because SQL equality never matches NULL.
- Ratings are integers in tenths of a star. The popularity bonuses of 1 and 0.5 are therefore 10 and 5.
- Money amounts are integers in hundredths.
- `parseFloat` on a price is modelled exactly over `real`.
  - It skips leading whitespace, reads an optional sign, and then reads the longest decimal literal with an optional exponent.
  - It recognises `Infinity`.
  - It gives NaN when no digits are present. Every comparison with NaN is false.
- The sort's price key is modelled separately: it removes every non-digit and reads what is left with `parseInt`, with `|| 0`.
- Hashing (`bcrypt.hash`, `bcrypt.compare`) and the clock (`new Date()`) are parameters: `hash`, `matches` and `now`.
- Currency amounts and rates are exact reals.
- The browser's `localStorage` is a class over a `map<string, string>`.

**The two middle budget bands include both their bounds. "under-1000" and "3000-plus" exclude theirs.** So 1000 and 3000 each fall in one band, and 2000 falls in two: "1000-2000" and "2000-3000". `CategoryFilters.BudgetBandsCover`, `CategoryFilters.BudgetBoundaries` and `CategoryFilters.DigitPriceBands` state this.

**The filter and the sort read a price differently.** When a comma splits a price's digits, the budget filter's `parseFloat` stops at the comma and reads only the digits before it. The sort removes the comma and reads all the digits. For "1,500" the destination is listed under "under-1000" but is sorted as 1500. `Browse.PriceParsersDisagree` states this for every such price, and `Browse.CommaPriceExample` for "1,500".

## Model

| member | source | states |
|---|---|---|
| Search.Score | client/src/pages/Destinations.tsx:70-75 | The relevance score adds at most 10 + 8 + 2 per term, so it is at most 20 times the number of terms. |
| Search.SearchDestinations | client/src/pages/Destinations.tsx:39-88 | A blank query returns the very same array. Any other query returns a fresh array holding the search result: the matching destinations, ranked by relevance with a stable sort. |
| Search.BlankQueryKeepsList | client/src/pages/Destinations.tsx:40-42 | An empty or all-whitespace query returns the input list unchanged, in the same order. |
| Search.SearchTerms | client/src/pages/Destinations.tsx:44 | No search term is empty. |
| Search.SearchTermsShape | client/src/pages/Destinations.tsx:44 | No search term is empty. Every term is lower case and holds no whitespace or comma. In order, the terms spell the lowercased query with its separators removed. |
| Search.SearchTermsSplitAtSeparator | client/src/pages/Destinations.tsx:44 | A whitespace character or comma cuts the query in two: the terms are those of the text before it, followed by those of the text after it. |
| Search.SearchTermsOfWord | client/src/pages/Destinations.tsx:44 | A non-empty query without whitespace or commas is exactly one term, the query lowercased. |
| Search.SearchableText | client/src/pages/Destinations.tsx:47-60 | The searchable text contains the lowercased name, country and description. |
| Search.TermScore | client/src/pages/Destinations.tsx:70-75 | One term adds at most 20, at least 10 when the lowercased name contains it, and more than 0 only when it matches the destination in the search filter. |
| Search.SearchResult | client/src/pages/Destinations.tsx:39-88 | No destination is in the result more often than in the input. After a non-blank query, some term matches every destination in the result. |
| Search.SeparatorQueryFindsNothing | client/src/pages/Destinations.tsx:40-46 | A query that is not blank but holds only commas and whitespace gives no terms, so nothing is found. |
| Search.SearchKeepsMatches | client/src/pages/Destinations.tsx:46-66 | For a non-blank query, a destination is in the result iff it is in the input and some term occurs in its searchable text, its lowercased country or its lowercased name. It occurs as often as in the input. |
| Search.NameMatchIsKept | client/src/pages/Destinations.tsx:61-65 | A destination whose lowercased name contains a term is always kept. |
| Search.DescriptionMatches | client/src/pages/Destinations.tsx:47-50 | A term found in the lowercased description matches, because the description is part of the searchable text. |
| Search.DescriptionMatchIsKept | client/src/pages/Destinations.tsx:47-66 | A destination whose lowercased description contains a term is kept. |
| Search.ForestNameMatchesJungle | client/src/pages/Destinations.tsx:58 | A name containing "Forest" adds the keywords "forest" and "jungle", so the term "jungle" matches it. |
| Search.RelevanceIsPreorder | client/src/pages/Destinations.tsx:69-85 | The comparator `bScore - aScore` is a total preorder. |
| Search.SearchByRelevance | client/src/pages/Destinations.tsx:69-85 | The result is in non-increasing score order. |
| Search.EqualScoresKeepOrder | client/src/pages/Destinations.tsx:69-85 | Results with equal scores keep their input order. |
| CategoryFilters.RegionKeywords | client/src/pages/Destinations.tsx:99-162 | Only the four named regions have a keyword list. Any other value matches no case of the switch. |
| CategoryFilters.BudgetBand | client/src/pages/Destinations.tsx:168-181 | Only the four named budgets have a band. |
| CategoryFilters.DurationBand | client/src/pages/Destinations.tsx:186-199 | Only the four named durations have a range of days. |
| CategoryFilters.DealTest | client/src/pages/Destinations.tsx:215-228 | Only the four named deal kinds have a test. |
| CategoryFilters.Matches | client/src/pages/Destinations.tsx:93-232 | The step-by-step `matches` flag, passed through the four switches, ends equal to the conjunction of the four filter predicates. |
| CategoryFilters.NarrowByRegion | client/src/pages/Destinations.tsx:96-163 | The flag after the region switch is the old flag AND the region test. |
| CategoryFilters.NarrowByBudget | client/src/pages/Destinations.tsx:165-182 | The flag after the budget switch is the old flag AND the band test on `parseFloat(price)`. |
| CategoryFilters.NarrowByDuration | client/src/pages/Destinations.tsx:184-200 | The flag after the duration switch is the old flag AND the day-range test. |
| CategoryFilters.NarrowByDeals | client/src/pages/Destinations.tsx:202-229 | The flag after the deals switch is the old flag AND the deal test. |
| CategoryFilters.HasActivePromo | client/src/pages/Destinations.tsx:204-213 | A flash sale, a seasonal tag or a positive group-discount minimum makes the promotion active. |
| CategoryFilters.PassesFilters | client/src/pages/Destinations.tsx:93-232 | When no filter names a known case, every destination passes. |
| CategoryFilters.FilteredIsSublist | client/src/pages/Destinations.tsx:93-232 | A destination is in the filtered list iff it is in the search result and passes all four filters. It occurs as often as before. |
| CategoryFilters.UnknownFiltersAreNoOp | client/src/pages/Destinations.tsx:97-203 | When no filter names a known case, the list is returned unchanged. |
| CategoryFilters.AllFiltersAreNoOp | client/src/pages/Destinations.tsx:97-203 | With every filter at "all", the list is returned unchanged. |
| CategoryFilters.RegionNeedsKeyword | client/src/pages/Destinations.tsx:97-163 | Under a named region, a destination passes only if its lowercased country contains one of that region's keywords. A country with none of them fails. |
| CategoryFilters.BudgetBandsCover | client/src/pages/Destinations.tsx:166-181 | NaN passes no band, and every finite price passes some band. Two bands overlap only at 2000, which passes both "1000-2000" and "2000-3000". |
| CategoryFilters.BudgetBoundaries | client/src/pages/Destinations.tsx:169-180 | 1000 passes only "1000-2000", 2000 passes both middle bands, and 3000 passes only "2000-3000". |
| CategoryFilters.DigitPriceBands | client/src/pages/Destinations.tsx:166-181 | A price written as plain digits parses as the number they spell, and every budget band judges it by that number. With BudgetBoundaries, "2000" passes both "1000-2000" and "2000-3000". |
| CategoryFilters.DurationBandsPartition | client/src/pages/Destinations.tsx:185-200 | No two duration bands overlap. A duration passes none of them iff it is below 3. |
| CategoryFilters.DealsImplyCurrentDeals | client/src/pages/Destinations.tsx:203-229 | Passing "flash-sales", "seasonal" or "group-discounts" implies passing "current-deals". |
| Numbers.ParseFloatAtDigit | client/src/pages/Destinations.tsx:167 | On a string that starts with a digit, `parseFloat` reads the decimal literal at the front. |
| Numbers.ParseFloatDigits | client/src/pages/Destinations.tsx:167 | `parseFloat` on a run of digits, followed by anything that cannot continue a number, gives the value of the digits. |
| Numbers.ParseFloatDecimal | client/src/pages/Destinations.tsx:167 | `parseFloat` of "d.f" gives the whole part plus the fraction. |
| Numbers.ParseFloat | client/src/pages/Destinations.tsx:167 | A blank string parses as NaN. A string without digits parses as NaN or as an infinity. |
| SortOrder.PriceKey | client/src/pages/Destinations.tsx:241-242 | The price key is below 10 to the number of digits in the price. A price without digits gets 0. |
| SortOrder.RatingKey | client/src/pages/Destinations.tsx:253-254 | A missing rating counts as 0, and a present one as its value. |
| SortOrder.PopularityKey | client/src/pages/Destinations.tsx:266-269 | Popularity is the rating plus at most 15 tenths. A flash sale adds at least 10, and with neither a flash sale nor a promo tag it is the rating. |
| SortOrder.ComparatorFor | client/src/pages/Destinations.tsx:235-276 | A value the switch does not know picks the name order. Every known sort mode picks a total preorder, and so does every value when the name order is one. |
| SortOrder.SortDestinations | client/src/pages/Destinations.tsx:235-276 | The method returns a fresh array, the input's stable sort under the comparator `sortBy` selects. The input array is left as it was. |
| SortOrder.AscendingIsPreorder | client/src/pages/Destinations.tsx:240-262 | A key comparator `key(a) - key(b)` is a total preorder. |
| SortOrder.DescendingIsPreorder | client/src/pages/Destinations.tsx:246-270 | A key comparator `key(b) - key(a)` is a total preorder. |
| SortOrder.SortPermutes | client/src/pages/Destinations.tsx:236-275 | Every sort order returns a permutation of the input. |
| SortOrder.PriceLowSorted | client/src/pages/Destinations.tsx:239-244 | "price-low" gives non-decreasing digit-stripped prices. A price without digits counts as 0. |
| SortOrder.PriceHighSorted | client/src/pages/Destinations.tsx:245-250 | "price-high" gives non-increasing digit-stripped prices. |
| SortOrder.RatingSorted | client/src/pages/Destinations.tsx:251-256 | "rating" gives non-increasing ratings. A missing rating counts as 0. |
| SortOrder.DurationSorted | client/src/pages/Destinations.tsx:257-262 | "duration" gives non-decreasing day counts. |
| SortOrder.PopularitySorted | client/src/pages/Destinations.tsx:263-271 | "popularity" gives non-increasing rating + 1 for a flash sale + 0.5 for a promo tag. |
| SortOrder.OtherModesSortByName | client/src/pages/Destinations.tsx:272-274 | "name" and every value the switch does not know sort by the name order, and the result is sorted by it. |
| SortOrder.KeyOrderStable | client/src/pages/Destinations.tsx:238-271 | Under each key order, destinations with equal keys keep their input order. |
| SortOrder.NameOrderStable | client/src/pages/Destinations.tsx:272-274 | Under the name order, destinations whose names compare equal keep their input order. |
| SortOrder.SortedInputUnchanged | client/src/pages/Destinations.tsx:236-275 | A list already in the chosen order comes back exactly as it was. |
| Browse.Shown | client/src/pages/Destinations.tsx:91-278 | No destination is shown more often than it was fetched, and every destination shown passes the filters. |
| Browse.ShowDestinations | client/src/pages/Destinations.tsx:91-278 | The list shown is the search result, narrowed by the filters, in the chosen sort order. |
| Browse.ShownContents | client/src/pages/Destinations.tsx:91-278 | Each destination is shown as often as it was fetched when the query finds it and it passes the filters, and otherwise not at all. |
| Browse.DefaultViewIsWholeList | client/src/pages/Destinations.tsx:39-278 | With a blank query and every filter at "all", the page shows the whole fetched list in the chosen order. |
| Browse.PriceParsersDisagree | client/src/pages/Destinations.tsx:167-243 | For a price whose digits a comma splits into a first and a second part, `parseFloat` reads only the first part, and every budget band judges the price by it. The sort key reads all the digits, as the first part shifted by the length of the second, plus the second. |
| Browse.CommaPriceExample | client/src/pages/Destinations.tsx:167-243 | An instance of `Browse.PriceParsersDisagree` for the price "1,500", not a property of its own. It passes the "under-1000" budget band but is sorted as 1500. |
| Storage.UserWithId | server/storage.ts:105 | An instance of `Seqs.FindFirst`. Finds the row holding a primary key, which the insert checks for a conflict. It reports nothing iff no row has that key. |
| Storage.DatabaseStorage.constructor | server/storage.ts:70 | The store starts with empty tables and every id counter at 1. |
| Storage.DatabaseStorage.GetUserByUsername | server/storage.ts:77-80 | Returns a row with that username, or nothing iff no row has it. |
| Storage.DatabaseStorage.CreateUser | server/storage.ts:99-107 | A truthy password is stored hashed and the row is appended. An id that is already taken fails with the primary-key error and leaves everything unchanged. The other tables are never touched. |
| Storage.DatabaseStorage.UpdateUserLastLogin | server/storage.ts:109-113 | Sets `lastLoginAt` on the rows with that id and changes nothing else. |
| Storage.DatabaseStorage.AuthenticateUser | server/storage.ts:82-97 | A missing user, a user without a stored password, or a failed hash check returns nothing and leaves the users table unchanged. On success it returns the user as read and records the login time on that user only. |
| Storage.DatabaseStorage.CheckImageUrlExists | server/storage.ts:212-233 | Returns a row holding that URL, with an id other than `excludeId` when `excludeId` is truthy. It returns nothing iff no such row exists. An `excludeId` of 0 excludes nothing. |
| Storage.DatabaseStorage.GetDestination | server/storage.ts:167-173 | Returns the row with that id, or nothing iff none has it. |
| Storage.DatabaseStorage.CreateDestination | server/storage.ts:175-189 | A truthy image URL already in use fails with a message naming its holder and leaves the store unchanged. Otherwise exactly one row is appended under the next id, and the URL then finds a holder. Image URLs stay unique. |
| Storage.DatabaseStorage.UpdateDestination | server/storage.ts:191-206 | A truthy new URL held by a different row fails without change. Otherwise the patch is merged into the row with that id, `updatedAt` is set, and that row is returned. Image URLs stay unique, and the row's own URL passes. |
| Storage.DatabaseStorage.GetAllDestinations | server/storage.ts:159-165 | The result is a permutation of the active rows. All of them are active, and they are in non-increasing rating order. |
| Storage.DatabaseStorage.GetDestinationsWithStats | server/storage.ts:235-257 | There is one entry per destination, inactive ones included. The count covers all of its bookings, cancelled ones included. The revenue is the sum of their amounts. Both are 0 when it has no bookings. |
| Storage.DatabaseStorage.CreateBooking | server/storage.ts:260-266 | Appends exactly one booking under the next id and returns it. The other tables are unchanged. |
| Storage.DatabaseStorage.CancelBooking | server/storage.ts:366-371 | The booking table becomes CancelRows of the old one: row `id` gets status "cancelled" and a new `updatedAt`, and no row is removed. |
| Storage.DatabaseStorage.CheckDuplicateBooking | server/storage.ts:373-389 | True iff some booking for exactly that user, destination, check-in and check-out has a status other than "cancelled". |
| Storage.DatabaseStorage.CreateActivityLog | server/storage.ts:392-398 | Appends exactly one log entry under the next id and returns it. |
| Storage.DatabaseStorage.GetActivityLogs | server/storage.ts:400-406 | Returns min(limit, number of entries) entries, with a default limit of 50. They are drawn from the log and are newest first, and no entry that is left out is newer than one that is returned. |
| Storage.DatabaseStorage.CreateReview | server/storage.ts:429-435 | Appends exactly one review under the next id and returns it. |
| Storage.DatabaseStorage.GetReviewStats | server/storage.ts:437-450 | The total is the number of the destination's reviews. With no reviews the average is 0. Otherwise it is the destination's rating sum divided by the count, rounded to the nearest tenth (RoundedMeanTenths). With ratings from 1 to 5 the rounded average lies between 1.0 and 5.0. |
| Tables.ImageHolder | server/storage.ts:212-233 | An instance of `Seqs.FindFirst`. Returns a row holding the URL and not excluded, or nothing iff no row qualifies. |
| Tables.CreateKeepsUrlsUnique | server/storage.ts:175-189 | Appending a row whose URL no row holds keeps image URLs unique. |
| Tables.RowWithId | server/storage.ts:200-205 | An instance of `Seqs.FindFirst`. Returns the row with that id, or nothing iff none has it. |
| Tables.PatchRows | server/storage.ts:200-204 | The update keeps the number of rows. |
| Tables.PatchKeepsOtherRows | server/storage.ts:200-204 | Each row with that id becomes its patched version, keeps its id and gets `updatedAt` = now. Every other row is kept exactly. |
| Tables.PatchKeepsUrlsUnique | server/storage.ts:191-206 | A patch whose URL passes the check with `excludeId = id` keeps image URLs unique. |
| Tables.OwnUrlPassesCheck | server/storage.ts:193-198 | Re-submitting a row's own URL passes the duplicate check. |
| Tables.RatingDescendingIsPreorder | server/storage.ts:164 | `ORDER BY rating DESC` is a total preorder, with a missing rating first. |
| Tables.ActiveByRating | server/storage.ts:159-165 | The listing is a permutation of the active rows. All of them are active, and they are sorted by rating, highest first. |
| Tables.HasActiveDuplicate | server/storage.ts:373-389 | True iff an uncancelled booking for exactly that trip exists. |
| Tables.ActiveDuplicateWitness | server/storage.ts:374-388 | The code's select-then-filter computes the same answer: its list of active matches is non-empty iff such a booking exists. |
| Tables.CancelRows | server/storage.ts:366-371 | Cancelling keeps the number of bookings. |
| Tables.CancelKeepsRows | server/storage.ts:366-371 | Row `id` becomes itself with status "cancelled" and `updatedAt` = now, and every other field kept. Every other row is kept exactly. |
| Tables.CancelClearsDuplicate | server/storage.ts:366-389 | When the cancelled booking was the only uncancelled match for its trip, the duplicate check then gives false. |
| Tables.CancelledTripIsNoDuplicate | server/storage.ts:386-388 | A trip whose bookings are all cancelled is no duplicate. |
| Tables.FindStat | server/storage.ts:249 | A group that is found belongs to the requested destination. |
| Tables.WithStats | server/storage.ts:248-256 | There is one entry per destination. |
| Tables.WithStatsCounts | server/storage.ts:235-257 | Each entry carries its destination, the number of its bookings and their total amount. Both are 0 without bookings. |
| Tables.UserByName | server/storage.ts:77-80 | An instance of `Seqs.FindFirst`. Returns a row with that username, or nothing iff none has it. |
| Tables.SetLastLogin | server/storage.ts:109-113 | Recording a login keeps the number of users. |
| Tables.SetLastLoginKeepsOtherRows | server/storage.ts:109-113 | Only `lastLoginAt` of the rows with that id changes, to now. Every other row is kept exactly. |
| Tables.SetLastLoginKeepsCredentials | server/storage.ts:94 | Recording a login does not change whether a username can be found. |
| Tables.RecentLogs | server/storage.ts:400-406 | Returns min(limit, size) log entries, newest first, drawn from the log. No entry that is left out is newer than one that is returned. |
| Tables.RoundedMeanTenths | server/storage.ts:440 | `ROUND(AVG(rating), 1)` in tenths is the nearest tenth of the mean, with halves rounded away from zero. |
| Tables.ReviewStatsOf | server/storage.ts:437-450 | The total is the number of the destination's reviews. With no reviews the average is 0. Otherwise it is their rating sum divided by the count, rounded to the nearest tenth. |
| Tables.ReviewAverageInRange | server/storage.ts:437-450 | With ratings from 1 to 5 and at least one review, the rounded average lies between 1.0 and 5.0. |
| Tables.MeanTenthsInRange | server/storage.ts:440 | The rounded mean of values from 1 to 5 lies between 10 and 50 tenths. |
| Seqs.FindFirst | client/src/utils/currency.ts:28 | `find` and a one-row `select`: the element returned satisfies the test and no earlier element does. It returns nothing iff no element satisfies the test. |
| Currency.FindIn | client/src/utils/currency.ts:28 | An instance of `Seqs.FindFirst`: `find` returns an entry with that code, or nothing iff none has it. |
| Currency.SupportedTableIsWellFormed | client/src/utils/currency.ts:10-21 | Every rate in the table is positive, and every code, symbol and name is non-empty. |
| Currency.DefaultIsSupported | client/src/utils/currency.ts:16-23 | The default "AUD" is in the table. |
| Currency.RateInFacts | client/src/utils/currency.ts:28-29 | In a table with positive rates, a found code uses the table's rate and an unknown code uses 1. Either way the rate is positive. |
| Currency.RateFromTable | client/src/utils/currency.ts:28-29 | A supported code's rate is the table's, and an unknown code's is 1. Both are positive. |
| Currency.ConvertCurrency | client/src/utils/currency.ts:25-26 | Converting from a code to the same code returns the amount. |
| Currency.SameCodeRatio | client/src/utils/currency.ts:25-26 | For equal codes, the amount returned is the amount times the ratio of the rates, which is 1. |
| Currency.ConvertIsRateRatio | client/src/utils/currency.ts:25-34 | Every conversion multiplies the amount by the target's rate divided by the source's rate. |
| Currency.OtherCodesRatio | client/src/utils/currency.ts:28-33 | For two different codes, going through the dollar multiplies by the ratio of the rates. |
| Currency.UnknownCodesKeepAmount | client/src/utils/currency.ts:28-33 | Between two unknown codes both rates are 1, so the amount comes back unchanged. |
| Currency.FromUnitRate | client/src/utils/currency.ts:28-33 | From a code of rate 1, conversion multiplies by the target's rate. |
| Currency.FromDollars | client/src/utils/currency.ts:28-33 | From "USD", conversion multiplies by the target's rate. |
| Currency.ConvertComposes | client/src/utils/currency.ts:25-34 | Converting from x to y and then from y to z equals converting from x to z. |
| Currency.RoundTrip | client/src/utils/currency.ts:25-34 | Converting there and back returns the amount. |
| Currency.CurrencySymbol | client/src/utils/currency.ts:50-52 | A supported code gets the table's symbol, and any other code gets "$". |
| Currency.CurrencyName | client/src/utils/currency.ts:54-56 | A supported code gets the table's name, and any other code gets "US Dollar". |
| Currency.FormatCurrency | client/src/utils/currency.ts:36-48 | The text is the symbol `getCurrencySymbol` gives, "$" for an unknown code, followed by the locale text: with 0 decimals for "JPY", 2 for the other supported codes, and default options for an unknown code. |
| Currency.FormatStartsWithSymbol | client/src/utils/currency.ts:36-48 | The output begins with the code's symbol, "$" for an unknown code. The rest is the locale text, with 0 decimals for yen and 2 otherwise, or with default options for an unknown code. |
| Currency.StoredPreference | client/src/utils/currency.ts:59-81 | The preferred code that is read is always a supported code. |
| Currency.AfterRead | client/src/utils/currency.ts:66-69 | A read never adds keys to storage. |
| Currency.LocalStorage.constructor | client/src/utils/currency.ts:61 | Storage starts with the given items. |
| Currency.LocalStorage.GetUserPreferredCurrency | client/src/utils/currency.ts:59-81 | Returns the stored preference and leaves storage as AfterRead says. The returned code is supported. |
| Currency.LocalStorage.SetUserPreferredCurrency | client/src/utils/currency.ts:83-87 | Stores the code under "preferred-currency", whatever the code is, and changes no other key. |
| Currency.OldDefaultIsSupported | client/src/utils/currency.ts:66 | Both old defaults, "USD" and "GBP", are codes of the table. So a stored value that is not supported is never an old default. |
| Currency.OldDefaultIsReset | client/src/utils/currency.ts:65-69 | A stored "USD" or "GBP" is removed from storage and "AUD" is returned. |
| Currency.SupportedIsKept | client/src/utils/currency.ts:70-72 | Any other stored supported code is returned, and storage is unchanged. |
| Currency.OtherIsDefault | client/src/utils/currency.ts:74-77 | An absent or unsupported stored value gives "AUD", and storage is unchanged. |
| Currency.ReadIsIdempotent | client/src/utils/currency.ts:59-81 | A second read returns the same code and changes nothing more. |
| Currency.SetThenGet | client/src/utils/currency.ts:59-87 | After storing c, a read returns c when c is supported and is neither "USD" nor "GBP", and returns "AUD" otherwise. |

## Left out

- The React rendering, animation and image fallbacks are not modelled. The query hook, the URL `search` parameter and navigation are not modelled either. They are user interface and I/O.
- `localeCompare` is left out because it depends on the locale. It is the parameter `nameLe`, and the name-order lemmas assume it is a total preorder.
- `toLocaleString` is left out because it depends on the locale. It is the parameter `toLocale`.
- IEEE-754 rounding is not modelled.
  - `parseFloat` reads a price as an exact real.
  - `convertCurrency` divides and multiplies exact reals. Its lemmas (the ratio of rates, composition, the round trip) hold for reals but can be off by rounding in floating point.
  - The sort keys are exact integers.
    - The price key is the digits' exact value. The source's `parseInt` gives a double, which loses exactness above 2^53.
    - The rating and popularity keys are exact tenths. The source's `rating + 1 + 0.5` is a floating-point sum, so two keys that are equal in tenths can compare as unequal after rounding, and the sort can order them differently.
- Case folding covers ASCII letters only. Non-ASCII case mapping in `toLowerCase` needs Unicode tables.
- The ORM and SQL engine are replaced by sequences of rows.
  - SQL `count` and `sum` are folds over those rows.
  - `ROUND(AVG(...), 1)` becomes exact rounding to the nearest tenth.
  - A `limit(1)` query without `ORDER BY` returns the first matching row in table order.
- Storage.DatabaseStorage.GetAllDestinations: states only that the result is a permutation of the active rows, sorted by rating. SQL does not fix the order of equal ratings. The model lists missing ratings first, as PostgreSQL's `DESC` does.
- Storage.DatabaseStorage.CreateUser: does not model that the source overwrites the caller's `userData.password` with the hash in place (server/storage.ts:101-103). The model builds a new row and leaves the argument as it was.
- Storage.DatabaseStorage.CreateUser: models the primary-key conflict only. The schema's other unique constraints, such as the one on usernames, are not part of this model.
- `getUser`, `updateUser`, `upsertUser`, `getAllUsers` and `deleteUser` are not modelled. They are plain single-table reads and writes with no rule of the layer's own.
- `deleteDestination` is not modelled. Its effect depends on foreign-key behaviour that these sources do not show.
- `getUserBookings`, `getAllBookings`, `getBooking` and `getDestinationReviews` are not modelled. They are joins shaped for display.
- `updateBooking` is not modelled. It is a plain patch, like `updateUser`.
- `getRevenue`, `getBookingStats` and `getUserStats` are left out. They return constants.
- Password hashing is the parameters `hash` and `matches`, since bcrypt is a foreign library.
- The current time is the parameter `now`.
- Concurrency is not modelled: the check-then-insert sequences race across requests. Transactions, foreign keys and database errors other than the primary-key conflict are also left out.
- The `typeof window` guard and the `console.log` calls in the currency utility are left out. The model assumes a browser, where `localStorage` exists.
- Currency.ConvertCurrency: its own contract states only the same-code case. The value for every pair of codes is stated beside it by `Currency.ConvertIsRateRatio`, because proving it inside the function's contract makes the solver expand the ten-entry rate table for both codes.
- Currency.FromDollars: stated for "USD" through its rate of 1 (`Currency.FromUnitRate`). It does not name the target's table entry.

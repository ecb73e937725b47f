# UrbanStay booking and payment core in Dafny

UrbanStay is a hotel booking site: an Express/MongoDB backend and a React
frontend. This project models the part of it that decides who gets which
night of which hotel and for how much:

- the booking controller (`createBooking`, `getAllBookings` paging);
- the payment controller (`createOrder`, `confirmPayment` with its retry loop);
- the three documents these write: night locks with a unique
  `(hotelId, date)` index, bookings, and payment intents with a unique `orderId`;
- the admin user listing and user deletion;
- the hotel search endpoint and the CORS origin check;
- on the frontend, the booking page (disabled days, price summary, guest
  counters, submit), the hotels page (text filter and price sort) and the
  wishlist heart of the hotel card.

Dates are whole day numbers and money is integers. The database is one object,
`Store.BookingStore`, whose three collections the handler methods update
in place. Each handler method is proved equal in effect to a pure function:

- `CreateBooking` to `Bookings.Book`;
- `CreateOrder` to `Payments.CreateOrder`;
- `ConfirmPayment` to `Payments.Confirm`, with its loop `RetryTransaction`
  equal to `Payments.Retry` and each attempt `RunAttempt` equal to
  `Payments.Attempt`.

`ClaimNights`, the lock insert inside a transaction, has a contract of its
own. The properties are proved about the pure functions:

- no double booking, for clients that agree on the time of day of a date (see "## Left out");
- every outcome keeps the store valid;
- idempotent replay of a payment confirmation;
- the retry schedule.

Several things outside the model become inputs:

- the hotel catalog (a map from hotel id to nightly price);
- the payment provider's answers;
- the errors storage calls throw;
- the generated order id;
- the loaded data of the frontend pages.

Three behaviours of the code that the model keeps:

- During payment confirmation, a night taken since the order was placed
  throws a duplicate-key error inside the retry loop. That error is not
  transient, so the call answers 500 at once.
- A `failed` intent is not final: it is queried again and can still become `paid`.
- `createBooking` accepts a stay whose checkout is not after its check-in.
  Such a stay claims no night but is still booked. It also accepts any total cost.

Modules, one per file, in dependency order:

- `Wrappers`, `Strings` and `Sequences` (`common.dfy`);
- `Dates`, `Ledger`, `Pricing`, `Pagination`, `Sorting`;
- `Bookings`, `Payments`, `Store`, `Users`, `Cors`, `Hotels`;
- `BookingPage`, `HotelsPage`, `HotelCard`.

## Model

| member | source | states |
|---|---|---|
| Strings.LowerChar | backend/src/controllers/hotels.ts:13 | upper-case ASCII letters move to lower case by adding 32, every other character is kept |
| Strings.ToLower | backend/src/controllers/hotels.ts:13 | same length, each character lower-cased |
| Strings.ToLowerIdempotent | frontend/src/Pages/Hotels.tsx:198-199 | lower-casing twice equals lower-casing once |
| Strings.ContainsAt | backend/src/index.ts:46 | `includes` holds exactly when the needle occurs at some index |
| Strings.ContainsEmpty | frontend/src/Pages/Hotels.tsx:195-199 | every string includes the empty string |
| Dates.GetDatesBetween | backend/src/controllers/bookings.ts:8-17 | the loop yields `end - start` nights (none if `end <= start`); night k is `start + k`; a day is listed iff `start <= d < end`; strictly ascending, hence distinct |
| Ledger.NightLocksMember | backend/src/controllers/bookings.ts:40-46 | a lock is among a stay's locks iff it is for that hotel and a night in [checkIn, checkOut) |
| Ledger.NightsFreeIsDisjoint | backend/src/models/hotelAvailability.ts:19-22 | a stay's nights are free iff its locks are disjoint from the existing ones |
| Ledger.LocksOfAppend | backend/src/controllers/bookings.ts:48-62 | appending a booking adds exactly that booking's nights to the locks the bookings hold |
| Ledger.LocksOfCovers | backend/src/controllers/bookings.ts:48-62 | every booking's nights are among the bookings' locks |
| Ledger.LocksOfOwned | backend/src/controllers/bookings.ts:48-62 | every lock held belongs to some booking |
| Ledger.EmptyValid | backend/src/models/hotelAvailability.ts:19-22 | the empty database satisfies the store invariant |
| Ledger.NoDoubleBooking | backend/src/models/hotelAvailability.ts:19-22 | in a valid store two different bookings of one hotel never share a night |
| Ledger.LockHasOneOwner | backend/src/models/hotelAvailability.ts:19-22 | every lock in a valid store belongs to exactly one booking: one booking of its hotel covers its night, and no other does |
| Ledger.ClaimKeepsLedger | backend/src/controllers/bookings.ts:40-62 | claiming a new booking's free nights and appending the booking keeps locks and bookings in one-to-one agreement |
| Ledger.AppendKeepsLinks | backend/src/controllers/payments.ts:204-219 | appending a booking leaves every intent's booking link valid |
| Ledger.InsertMany | backend/src/models/hotelAvailability.ts:19-22 | the batch insert succeeds iff the documents are pairwise distinct and none exists yet; on success the locks gain exactly the batch |
| Ledger.LockDocs | backend/src/controllers/bookings.ts:43-46 | one lock per listed night, in order, for the given hotel |
| Ledger.StayDocs | backend/src/controllers/bookings.ts:40-48 | a stay's lock batch is duplicate-free, is exactly the stay's night locks, and collides with the existing locks iff some night is taken |
| Pricing.Tax | backend/src/controllers/payments.ts:41 | tax is 12% of the base rounded to the nearest unit, halves up |
| Pricing.CalculateTotalAmount | backend/src/controllers/payments.ts:32-51 | throws iff nights <= 0; otherwise nights, base = nights × price, rounded 12% tax, fee 500, total = base + tax + fee |
| Pricing.TotalIsNearest | backend/src/controllers/payments.ts:40-49 | the total is within a half of 112% of the base plus the fee |
| Pricing.TwoNightsAtThousand | backend/src/controllers/payments.ts:32-51 | 1000 per night for two nights totals 2740 |
| Pricing.LongerStayCostsMore | backend/src/controllers/payments.ts:40-49 | at a non-negative price a longer stay never costs less |
| Pagination.OrDefault | backend/src/controllers/bookings.ts:109-110 | an absent, unparseable or zero parameter gives the fallback, any other value is kept |
| Pagination.PagesPartition | backend/src/controllers/bookings.ts:111-130 | with a positive size, document k of total lies in the skip/limit window of page k / size + 1, one of pages 1..pages, and in no other page's window: the pages partition the documents |
| Pagination.Window | backend/src/controllers/hotels.ts:37-38 | `skip(skip).limit(size)`: the elements from position skip on, size of them or fewer at the end, none past it |
| Pagination.CeilDiv | backend/src/controllers/bookings.ts:130 | `Math.ceil(total / size)`: the least page count covering total, for either sign of size |
| Pagination.LastPageHoldsLastDocument | backend/src/controllers/bookings.ts:111-130 | with a positive size the last page starts before the last document and reaches it |
| Pagination.ListPage | backend/src/controllers/bookings.ts:107-135 | 500 iff storage throws or the skip (page - 1) × limit is negative; otherwise page defaults to 1, limit to 10 (never 0), the skip is that product, and pages is `Math.ceil(total / limit)` for either sign of the limit |
| Pagination.NegativeSkipFails | backend/src/controllers/bookings.ts:109-119 | without a storage error the listing fails exactly for a page below 0 with a positive limit, or a page of 2 or more with a negative limit |
| Bookings.NewBooking | backend/src/controllers/bookings.ts:51-62 | the booking written takes the next free id, belongs to the caller, occupies exactly the requested nights, costs the sent total and gets the default status "confirmed" |
| Bookings.CatchReply | backend/src/controllers/bookings.ts:69-79 | a caught error answers 400 "already booked" iff its code is 11000, otherwise 500 |
| Bookings.Book | backend/src/controllers/bookings.ts:19-83 | 401 without user; with one, a fault answers by its code (400 for 11000, else 500), then 404 for an unknown hotel, 400 when a night is taken, 500 when no cost is given, else confirmed; confirmed iff all checks pass, and then locks gain exactly the stay's nights and one booking with the request's fields is appended; every other answer leaves the store unchanged |
| Bookings.TakenNightRejected | backend/src/controllers/bookings.ts:40-76 | one already-locked night makes the request answer 400 and write nothing |
| Bookings.BookKeepsValid | backend/src/controllers/bookings.ts:38-64 | every outcome of `createBooking` keeps the store invariant |
| Bookings.OverlapRejectedAfterBooking | backend/src/controllers/bookings.ts:40-48 | after a stay is confirmed, any request sharing one of its nights answers 400 and writes nothing |
| Bookings.EmptyStayStillBooked | backend/src/controllers/bookings.ts:38-62 | a stay with checkout not after check-in claims no night and is still confirmed |
| Bookings.BackToBackStaysBothBooked | backend/src/controllers/bookings.ts:8-17 | in any valid store where the nights from check-in to checkout are free, a stay ending on day d and one starting on day d are both confirmed: the checkout day is not locked |
| Payments.CreateOrder | backend/src/controllers/payments.ts:54-127 | 401 without user; then 500 when the hotel lookup throws, 404 for an unknown hotel, and 500 for every later failure (pricing throws, no session id, a count missing, a duplicate orderId); created iff none of these; success stores under orderId exactly the intent of the request's stay and guests with the priced total, INR, `created`, no booking; nothing else ever changes |
| Payments.NewIntent | backend/src/controllers/payments.ts:102-113 | the stored intent carries the order id, user, hotel, dates and priced total, INR and `created`; it is not settled and is correctly linked whatever the bookings |
| Payments.CreatedOrderIntent | backend/src/controllers/payments.ts:102-113 | after a created order the intents are the old ones plus orderId, whose intent carries the user, hotel, dates and guest counts of the request, the priced total, INR, `created` and no booking |
| Payments.CreateOrderKeepsValid | backend/src/controllers/payments.ts:102-113 | storing an intent keeps the store invariant |
| Payments.ReportsPaid | backend/src/controllers/payments.ts:167-174 | a provider status counts as paid iff it is present and one of PAID, COMPLETED, SUCCESS |
| Payments.PaidBooking | backend/src/controllers/payments.ts:204-215 | the booking a confirmation writes takes the next free id, is the one the intent paid for (hotel, user, dates, amount), occupies exactly the intent's nights and gets the default status |
| Payments.IsTransient | backend/src/controllers/payments.ts:232-238 | an error is retried iff it carries the TransientTransactionError label or its codeName is WriteConflict |
| Payments.Retry | backend/src/controllers/payments.ts:137-252 | the retry loop from a given attempt: a 500 leaves the store as it was before the call, and the loop never answers the 400 of a missing orderId; its waits and outcome are stated by RetryBackoffs and RetryOutcome |
| Payments.Attempt | backend/src/controllers/payments.ts:142-227 | one transaction, each answer with the condition that gives it: a fault throws and writes nothing; 404 iff the intent is unknown; a paid intent with a booking returns that id; otherwise an unpaid status marks the intent failed with 400; a paid status for an unknown hotel is 404; for a known one, free nights create the booking with the next id (locks, booking for the intent's amount, intent paid and linked) and a taken night throws a duplicate key; a committed attempt never answers 500 |
| Payments.RetryBackoffs | backend/src/controllers/payments.ts:139-250 | from any attempt on, earlier waits are kept, each further attempt but the last is followed by a `100 × attempt` ms wait, and at most `MAX_RETRIES` attempts run |
| Payments.RetryOutcome | backend/src/controllers/payments.ts:139-252 | from any attempt on, every attempt before the last threw a transient error; the call answers 500 iff the last attempt threw, and then that error was not transient or it was attempt 3, with the store untouched; otherwise the last attempt committed and its result is the call's |
| Payments.Confirm | backend/src/controllers/payments.ts:130-253 | empty orderId answers 400 with no attempt; otherwise fewer than three waits of 100, 200 ms, each after a transient failure; a 500 iff the final attempt threw an error that is not transient or was attempt 3, with the store unchanged; otherwise the final attempt's result |
| Payments.ConfirmBackoffs | backend/src/controllers/payments.ts:137-249 | the waits made are a prefix of [100, 200] |
| Payments.AttemptKeepsValid | backend/src/controllers/payments.ts:142-227 | every committed attempt keeps the store invariant |
| Payments.ConfirmKeepsValid | backend/src/controllers/payments.ts:130-253 | every `confirmPayment` call keeps the store invariant |
| Payments.ReplayReturnsSameBooking | backend/src/controllers/payments.ts:153-161 | once an order has a booking, a new confirmation writes nothing and returns the same booking id whatever the provider says, unless storage fails |
| Payments.CreatedIntentIsBooked | backend/src/controllers/payments.ts:154-224 | a `created` intent reported paid, for a known hotel with free nights, is booked on the first attempt: locks gain the stay's nights, its booking is appended with the next id, the intent becomes `paid` and linked, 200 |
| Payments.FailedIntentCanStillBePaid | backend/src/controllers/payments.ts:154-219 | a `failed` intent later reported paid with free nights gets its booking and becomes `paid` |
| Payments.UnpaidMarksFailed | backend/src/controllers/payments.ts:170-184 | a status other than PAID, COMPLETED, SUCCESS marks the intent failed, answers 400 and claims no night |
| Payments.TakenNightIsServerError | backend/src/controllers/payments.ts:195-245 | a night taken since ordering makes the call answer 500 at once with the intent unchanged |
| Payments.NonTransientNotRetried | backend/src/controllers/payments.ts:236-245 | a non-transient error ends the call after one attempt with 500 and no write |
| Payments.ThreeTransientFailuresGiveUp | backend/src/controllers/payments.ts:139-250 | three transient failures give 500, no write, after waits of 100 and 200 ms |
| Payments.TransientThenCleanCommits | backend/src/controllers/payments.ts:139-252 | a transient failure then a clean attempt has the clean attempt's effect, after one 100 ms wait |
| Store.BookingStore.constructor | backend/src/models/hotelAvailability.ts:3-16 | the database starts empty and valid |
| Store.BookingStore.ClaimNights | backend/src/controllers/bookings.ts:38-48 | a step inside a transaction, not a handler: the lock batch is inserted iff all nights were free; then the locks grow by exactly the stay's nights, otherwise nothing changes |
| Store.BookingStore.CreateBooking | backend/src/controllers/bookings.ts:19-83 | the new state and answer are those of `Bookings.Book`; the invariant is kept |
| Store.BookingStore.CreateOrder | backend/src/controllers/payments.ts:54-127 | the new state and answer are those of `Payments.CreateOrder`; the invariant is kept |
| Store.BookingStore.RunAttempt | backend/src/controllers/payments.ts:140-245 | a committed attempt leaves the state and answer of `Payments.Attempt`, a thrown one returns the error and rolls everything back |
| Store.BookingStore.ConfirmPayment | backend/src/controllers/payments.ts:130-253 | the new state, answer and waits are those of `Payments.Confirm`; the invariant is kept |
| Store.BookingStore.RetryTransaction | backend/src/controllers/payments.ts:137-252 | the loop's state, answer and waits are those of the retry schedule from attempt 1 |
| Users.AllUsersPage | backend/src/controllers/users.ts:25-61 | 500 iff storage throws or the skip is negative; otherwise page and limit defaults as in the other listings, total is the search count iff a non-empty term was given, else the estimated size, and pages is `Math.ceil(total / limit)` for either sign of the limit |
| Users.EmptySearchCountsAll | backend/src/controllers/users.ts:29-46 | an empty or absent term gives the same answer, that of the whole collection |
| Users.DeleteUser | backend/src/controllers/users.ts:65-79 | deleted (200) iff the id exists, 404 iff it does not, 500 on a lookup error; only a deletion removes anything, exactly that id |
| Users.DeleteTwiceNotFound | backend/src/controllers/users.ts:69-73 | a second deletion of the same user answers 404 and changes nothing |
| Cors.Compact | backend/src/index.ts:30 | `filter(Boolean)` keeps exactly the present, non-empty strings |
| Cors.AllowedOriginsContents | backend/src/index.ts:24-30 | the list holds the four fixed origins, `FRONTEND_URL` iff it is non-empty, nothing else and no empty entry |
| Cors.CompactKeepsTruthy | backend/src/index.ts:30 | a list of non-empty strings passes the filter whole: the same length, and entry k is the k-th string |
| Cors.DeploymentOriginsKept | backend/src/index.ts:27-30 | the three deployment URLs all pass the filter, in order |
| Cors.AllowedOrigins | backend/src/index.ts:24-30 | the list is the local development server, then `FRONTEND_URL` when it is non-empty, then the three deployment URLs, in that order |
| Cors.CompactPair | backend/src/index.ts:24-30 | the filter drops the optional second entry exactly when it is falsy |
| Cors.UnsetFrontendUrlDropped | backend/src/index.ts:26-30 | unset and empty `FRONTEND_URL` give the same four-origin list; a set one makes it five |
| Cors.OriginDecision | backend/src/index.ts:34-54 | no (or empty) origin is allowed; otherwise allowed iff listed or containing ".vercel.app" |
| Cors.ConfiguredOriginsAllowed | backend/src/index.ts:41-44 | every configured origin is allowed |
| Cors.ContainsFirstChar | backend/src/index.ts:46 | a string including a non-empty needle holds its first character |
| Cors.VercelAnywhereAllowed | backend/src/index.ts:45-48 | any origin with ".vercel.app" anywhere, such as a look-alike host, is allowed whatever the list |
| Cors.NoDotNoVercel | backend/src/index.ts:46 | a string without a dot never includes ".vercel.app" |
| Cors.DotlessUnlistedOriginRejected | backend/src/index.ts:41-53 | an unlisted origin without a dot is refused |
| Hotels.BuildQuery | backend/src/controllers/hotels.ts:10-32 | the built query matches a hotel iff the request wants it: lower-cased destination equals city or country, all listed facilities present (an empty list admits none), price at most the maximum; falsy parameters add no condition |
| Hotels.Select | backend/src/controllers/hotels.ts:34-41 | at most as many hotels as the collection, exactly the matching ones |
| Hotels.SelectCounts | backend/src/controllers/hotels.ts:34-41 | each matching hotel as often as in the collection, no other |
| Hotels.SelectConcat | backend/src/controllers/hotels.ts:34-41 | selecting from a concatenation is the concatenation of the selections, so collection order is kept |
| Hotels.NewestMatches | backend/src/controllers/hotels.ts:35-36 | a permutation of the matching hotels (as many, each as often), most recently updated first |
| Hotels.SortedPage | backend/src/controllers/hotels.ts:6-48 | page p >= 1 of a newest-first list: the entries from (p - 1) × 6 on, six or fewer at the end, still newest first; total and pages = ceil(total / 6) |
| Hotels.ResultPage | backend/src/controllers/hotels.ts:6-50 | a page before the first fails (500); otherwise the data is the window of min(6, total - skip) hotels (none past the end) starting at skip = (page - 1) × 6 of the newest-first permutation of the matches; total = number of matches, pages = ceil(total / 6) |
| Hotels.PageNewestFirst | backend/src/controllers/hotels.ts:36 | along a page `lastUpdated` never increases |
| Hotels.SelectEquivalent | backend/src/controllers/hotels.ts:34-41 | queries matching the same hotels select the same list |
| Hotels.SearchHotels | backend/src/controllers/hotels.ts:4-55 | a storage error answers 500; otherwise the response is the result page for the defaulted page number of any query selecting exactly the wanted hotels; every returned hotel is wanted |
| Hotels.MatchOnSomePage | backend/src/controllers/hotels.ts:6-49 | every matching hotel is on one of the pages 1..pages |
| Sorting.AscendingPairs | frontend/src/Pages/Hotels.tsx:204-205 | in an ascending sequence every earlier key is at most every later one |
| Sorting.AscendingSlice | backend/src/controllers/hotels.ts:36-38 | a window of an ascending sequence is ascending |
| Sorting.Insert | backend/src/controllers/hotels.ts:36 | inserting into an ordered sequence keeps it ordered and adds exactly the element |
| Sorting.SortBy | backend/src/controllers/hotels.ts:36 | the result is ordered by the key and a permutation of the input |
| Sorting.SortInPlace | frontend/src/Pages/Hotels.tsx:203-208 | the array ends ordered by the key and a permutation of its old contents |
| Sorting.MoveLeft | frontend/src/Pages/Hotels.tsx:205 | with a[..i] ordered, a[..i+1] ends ordered, same elements |
| Sorting.Swap | frontend/src/Pages/Hotels.tsx:205 | two elements exchanged, the rest unchanged |
| Sorting.DescendingByNegation | frontend/src/Pages/Hotels.tsx:206-207 | ordered by the negated key means non-increasing in the key |
| BookingPage.IsDateBooked | frontend/src/Pages/Booking.tsx:93-98 | a day is disabled iff some booked stay has checkIn <= day < checkOut |
| BookingPage.CheckOutDaySelectable | frontend/src/Pages/Booking.tsx:93-98 | a stay's checkout day is not disabled by it; its first day is iff it has a night |
| BookingPage.BookedInConcat | frontend/src/Pages/Booking.tsx:93-98 | a day is disabled by a concatenation iff by one of its parts |
| BookingPage.BookingSummary | frontend/src/Pages/Booking.tsx:101-120 | absent iff a date or the hotel is missing or nights <= 0; otherwise the same breakdown as the server pricing |
| BookingPage.SummaryMatchesServerPricing | frontend/src/Pages/Booking.tsx:101-120 | the page's summary exists iff the server's pricing accepts the stay, and then equals it |
| BookingPage.PostedStayHasNights | frontend/src/Pages/Booking.tsx:102-135 | a posted stay has at least one night and its total is the server's |
| BookingPage.BookingForm.constructor | frontend/src/Pages/Booking.tsx:42-51 | one adult, no child, no dates, not submitting |
| BookingPage.BookingForm.DecrementAdults | frontend/src/Pages/Booking.tsx:261 | adults become max(1, adults - 1); nothing else changes |
| BookingPage.BookingForm.IncrementAdults | frontend/src/Pages/Booking.tsx:269 | adults grow by one; nothing else changes |
| BookingPage.BookingForm.DecrementChildren | frontend/src/Pages/Booking.tsx:283 | children become max(0, children - 1); nothing else changes |
| BookingPage.BookingForm.IncrementChildren | frontend/src/Pages/Booking.tsx:291 | children grow by one; nothing else changes |
| BookingPage.BookingForm.Submit | frontend/src/Pages/Booking.tsx:123-149 | nothing is sent iff the summary or a date is missing; otherwise hotel, dates, guest counts and the summary's total are posted, a 400 shows "already booked", another error a generic failure, and submitting ends false |
| HotelsPage.Filter | frontend/src/Pages/Hotels.tsx:196-201 | keeps exactly the hotels whose lower-cased name or city includes the lower-cased query, never more than the list |
| HotelsPage.FilterCounts | frontend/src/Pages/Hotels.tsx:196-201 | each kept hotel as often as in the list, no other |
| HotelsPage.FilterConcat | frontend/src/Pages/Hotels.tsx:196-201 | filtering a concatenation is the concatenation of the filtered parts, so list order is kept |
| HotelsPage.SearchFilter | frontend/src/Pages/Hotels.tsx:195-201 | an empty query keeps the list, any other applies the filter |
| HotelsPage.EmptyQueryKeepsAll | frontend/src/Pages/Hotels.tsx:195 | the filter with the empty query keeps every hotel |
| HotelsPage.FilterIgnoresQueryCase | frontend/src/Pages/Hotels.tsx:198-199 | the filter does not depend on the query's case |
| HotelsPage.NextSort | frontend/src/Pages/Hotels.tsx:266-268 | asc becomes desc, anything else asc |
| HotelsPage.ToggleAlternates | frontend/src/Pages/Hotels.tsx:266-268 | after the first press the order alternates and never returns to unsorted |
| HotelsPage.HotelsListing.constructor | frontend/src/Pages/Hotels.tsx:168-174 | nothing loaded, empty query, unsorted |
| HotelsPage.HotelsListing.Load | frontend/src/Pages/Hotels.tsx:180 | the loaded hotels replace the list; query and order kept |
| HotelsPage.HotelsListing.SetSearchQuery | frontend/src/Pages/Hotels.tsx:259 | the query is replaced; hotels and order kept |
| HotelsPage.HotelsListing.ToggleSort | frontend/src/Pages/Hotels.tsx:266-268 | the order moves by `NextSort`; nothing else changes |
| HotelsPage.HotelsListing.ClearFilters | frontend/src/Pages/Hotels.tsx:312-315 | query empty and order unsorted; hotels kept |
| HotelsPage.HotelsListing.FilteredHotels | frontend/src/Pages/Hotels.tsx:191-211 | a permutation of the filtered hotels, unchanged when unsorted, non-decreasing price for asc, non-increasing for desc; the page state is untouched |
| HotelsPage.SortedByPrice | frontend/src/Pages/Hotels.tsx:203-208 | a permutation of its input by non-decreasing or non-increasing price |
| HotelCard.InList | frontend/src/components/HotelCard.tsx:28 | true iff some entry has the id |
| HotelCard.RemoveId | frontend/src/components/HotelCard.tsx:40 | every entry with the id goes, every other entry stays, never more than the list |
| HotelCard.RemoveIdCounts | frontend/src/components/HotelCard.tsx:40 | every entry with another id keeps its multiplicity |
| HotelCard.RemoveAbsentId | frontend/src/components/HotelCard.tsx:40 | removing an absent id leaves the list unchanged |
| HotelCard.RemoveIdConcat | frontend/src/components/HotelCard.tsx:40 | removal distributes over concatenation, so order is kept |
| HotelCard.LikeThenUnlikeRestores | frontend/src/components/HotelCard.tsx:38-44 | liking then unliking a hotel not yet on the list gives the list back |
| HotelCard.WishlistStorage.constructor | frontend/src/components/HotelCard.tsx:26-27 | the storage holds the given entry |
| HotelCard.Card.constructor | frontend/src/components/HotelCard.tsx:25-29 | liked iff the stored list (empty when missing) holds the hotel's id |
| HotelCard.Card.Toggle | frontend/src/components/HotelCard.tsx:32-52 | a liked card removes every entry with its id, an unliked one appends the hotel; the list is written back, the flag flips and then agrees with the list |

## Left out

- Floating point and calendar arithmetic. Nights come from millisecond division and days are stepped with `setDate`; both are modelled as whole day numbers. `Math.round(base * 0.12)` is exact half-up integer rounding.
- Ledger.NoDoubleBooking: a lock's `date` is the exact instant `new Date(checkIn)` stepped by `setDate` (backend/src/controllers/bookings.ts:38-46, backend/src/controllers/payments.ts:195-200), and the unique index compares instants (backend/src/models/hotelAvailability.ts:19-22). With whole day numbers the model keys a lock by its day, so the property holds only when every client sends the same time of day for a given date. The booking page posts the date picker's `Date` (frontend/src/Pages/Booking.tsx:131). Two clients in different time zones that pick the same day send different instants; their locks never collide, and both overlapping stays are booked.
- Storage internals: transactions, sessions, concurrency and how the unique indexes are enforced. Each handler call is one atomic step. A thrown storage error is an input: one per call for `createBooking`, `createOrder` (its hotel lookup), `deleteUser`, `searchHotels`, `getAllBookings` and `getAllUsers`, one per attempt for `confirmPayment`.
- Payments.CreateOrder: an error the intent insert throws for a reason other than its schema or its unique orderId is not a separate input; like every other late failure it would answer 500 with nothing written.
- The backoff wait (`setTimeout`) is recorded as its delay value and not waited.
- The payment provider (`PGCreateOrder`, `PGFetchOrder`) is replaced by its answers. The order status is one input, the same for every attempt of a call.
- The `order_${Date.now()}_...` order id generation is replaced by an input id.
- HTTP plumbing, routes, JWT authentication, password hashing and the database connection are not modelled. `cancelBooking` is named by the routes but defined nowhere, so there is nothing to model.
- Hotel CRUD, analytics, `getMyBookings`, `getHotelById` and `getAllHotels` are not part of this model.
- Users.AllUsersPage: MongoDB `$text` search is not modelled; the two counts the handler may report are inputs.
- Users.DeleteUser: users are a set of ids; the documents themselves are left out.
- Strings.ToLower: lower-cases ASCII letters only; JavaScript's full Unicode case mapping is left out.
- Pagination.OrDefault: a non-numeric parameter is folded into "absent" (NaN is falsy), and a fractional one is left out.
- Hotels.SearchHotels: a non-numeric `maxPrice` (NaN, which matches nothing) is left out; the maximum is an integer when present.
- Sorting.SortBy: stability of the sort is not stated. Among hotels with equal `lastUpdated` or equal price, the order is not claimed to follow either storage order or JavaScript's stable `sort`.
- Store.BookingStore.CreateBooking: the checks `createBooking` performs (user, hotel, free nights, schema) are in the model; the documents' timestamps, the `createdAt` order and the populated references are left out.
- BookingPage.BookingForm: loading the hotel and the booked stays, the login redirect, the date pickers' disabling of booked days and navigation after success are rendering or I/O and are left out; the pickers' values are fields set from outside.
- HotelCard.Card.Toggle: the `wishlistUpdated` event, and another tab changing the stored list between mount and press, are left out.

/** The direct booking path, `createBooking`: inside one transaction it
    looks the hotel up, inserts one lock per night and creates the
    booking; any error aborts the transaction. `Book` gives the outcome of
    one request on a snapshot of the store; `Store.BookingStore.CreateBooking`
    carries it out step by step. */
module Bookings {

  import opened Wrappers
  import opened Ledger

  /** The responses of `createBooking`. */
  datatype BookingReply = Confirmed | Unauthorized | HotelNotFound | AlreadyBooked | BookingFailed

  /** The HTTP status each response is sent with. */
  function StatusCode(r: BookingReply): int
  {
    match r
    case Confirmed => 201
    case Unauthorized => 401
    case HotelNotFound => 404
    case AlreadyBooked => 400
    case BookingFailed => 500
  }

  /** The request body. Day numbers stand for the two dates; `totalCost`
      is whatever the client sent, and is absent when it sent none. */
  datatype BookingRequest = BookingRequest(
    hotelId: HotelId,
    checkIn: int,
    checkOut: int,
    totalCost: Option<int>)

  /** The `catch` block: a duplicate-key error (code 11000) means a night
      was already booked; anything else is a generic failure. */
  function CatchReply(e: Failure): (r: BookingReply)
    ensures r == AlreadyBooked <==> e.code == 11000
    ensures r == AlreadyBooked || r == BookingFailed
  {
    if e.code == 11000 then AlreadyBooked else BookingFailed
  }

  datatype Outcome = Outcome(state: Snapshot, reply: BookingReply)

  /** The booking `createBooking` writes for a request: it takes the next
      free id, belongs to the caller, occupies exactly the requested
      nights, costs what the client sent and gets the default status. */
  function NewBooking(st: Snapshot, userId: UserId, req: BookingRequest): (b: Booking)
    requires req.totalCost.Some?
    ensures IdsAreIndices(st.bookings) ==> IdsAreIndices(st.bookings + [b])
    ensures BookingLocks(b) == NightLocks(req.hotelId, req.checkIn, req.checkOut)
    ensures forall d :: Occupies(b, d) <==> req.checkIn <= d < req.checkOut
    ensures b.userId == userId && b.totalCost == req.totalCost.value && b.status == DefaultBookingStatus
  {
    Booking(|st.bookings|, req.hotelId, userId, req.checkIn, req.checkOut, req.totalCost.value, DefaultBookingStatus)
  }

  /** One `createBooking` call on the store `st`. `userId` is what the
      authentication middleware attached, `catalog` maps the existing
      hotels to their nightly price, and `fault` is an error the
      transaction's storage calls throw, if any. The request commits
      entirely or leaves the store as it was. */
  function Book(st: Snapshot, userId: Option<UserId>, req: BookingRequest,
                fault: Option<Failure>, catalog: map<HotelId, int>): (r: Outcome)
    ensures r.reply != Confirmed ==> r.state == st
    ensures userId.None? ==> r.reply == Unauthorized
    ensures userId.Some? && fault.Some? ==> r.reply == CatchReply(fault.value)
    ensures userId.Some? && fault.None? && req.hotelId !in catalog ==> r.reply == HotelNotFound
    ensures userId.Some? && fault.None? && req.hotelId in catalog ==>
              if !NightsFree(st.locks, req.hotelId, req.checkIn, req.checkOut) then r.reply == AlreadyBooked
              else if req.totalCost.None? then r.reply == BookingFailed
              else r.reply == Confirmed
    ensures r.reply == Confirmed <==>
              userId.Some? && fault.None? && req.hotelId in catalog
              && NightsFree(st.locks, req.hotelId, req.checkIn, req.checkOut) && req.totalCost.Some?
    ensures r.reply == Confirmed ==>
              && r.state.locks == st.locks + NightLocks(req.hotelId, req.checkIn, req.checkOut)
              && r.state.bookings == st.bookings + [NewBooking(st, userId.value, req)]
              && r.state.intents == st.intents
  {
    if userId.None? then
      Outcome(st, Unauthorized)
    else if fault.Some? then
      Outcome(st, CatchReply(fault.value))
    else if req.hotelId !in catalog then
      Outcome(st, HotelNotFound)
    else if !NightsFree(st.locks, req.hotelId, req.checkIn, req.checkOut) then
      Outcome(st, CatchReply(DuplicateKey))
    else if req.totalCost.None? then
      Outcome(st, CatchReply(ValidationFailure))
    else
      var b := NewBooking(st, userId.value, req);
      Outcome(Snapshot(st.locks + BookingLocks(b), st.bookings + [b], st.intents), Confirmed)
  }

  /** A night that is already locked makes the whole request fail with 400
      and write nothing. */
  lemma TakenNightRejected(st: Snapshot, userId: UserId, req: BookingRequest,
                           catalog: map<HotelId, int>, d: int)
    requires req.hotelId in catalog
    requires req.checkIn <= d < req.checkOut && Lock(req.hotelId, d) in st.locks
    ensures Book(st, Some(userId), req, None, catalog) == Outcome(st, AlreadyBooked)
    ensures StatusCode(AlreadyBooked) == 400
  {
  }

  /** `createBooking` keeps the store valid: the new booking's nights are
      locked, and no night is held by two bookings. */
  lemma {:induction false} BookKeepsValid(st: Snapshot, userId: Option<UserId>, req: BookingRequest,
                                          fault: Option<Failure>, catalog: map<HotelId, int>)
    requires Valid(st)
    ensures Valid(Book(st, userId, req, fault, catalog).state)
  {
    var r := Book(st, userId, req, fault, catalog);
    if r.reply == Confirmed {
      var b := NewBooking(st, userId.value, req);
      ClaimKeepsLedger(st.locks, st.bookings, b);
      AppendKeepsLinks(st.bookings, b, st.intents);
    }
  }

  /** Once a booking of at least one night is confirmed, every later
      request for the same hotel whose stay shares a night with it is
      rejected as already booked, whoever makes it. */
  lemma {:induction false} OverlapRejectedAfterBooking(
    st: Snapshot, u1: UserId, req1: BookingRequest,
    u2: UserId, req2: BookingRequest, catalog: map<HotelId, int>, d: int)
    requires Book(st, Some(u1), req1, None, catalog).reply == Confirmed
    requires req2.hotelId == req1.hotelId
    requires req1.checkIn <= d < req1.checkOut && req2.checkIn <= d < req2.checkOut
    ensures var st1 := Book(st, Some(u1), req1, None, catalog).state;
            Book(st1, Some(u2), req2, None, catalog) == Outcome(st1, AlreadyBooked)
  {
    var st1 := Book(st, Some(u1), req1, None, catalog).state;
    NightLocksMember(req1.hotelId, req1.checkIn, req1.checkOut, Lock(req1.hotelId, d));
    assert Lock(req2.hotelId, d) in st1.locks;
  }

  /** A stay whose checkout is not after its check-in claims no night and
      is still booked: the handler does not check the range. */
  lemma EmptyStayStillBooked(st: Snapshot, userId: UserId, req: BookingRequest,
                             catalog: map<HotelId, int>)
    requires req.checkOut <= req.checkIn
    requires req.hotelId in catalog && req.totalCost.Some?
    ensures var r := Book(st, Some(userId), req, None, catalog);
            r.reply == Confirmed && r.state.locks == st.locks
            && |r.state.bookings| == |st.bookings| + 1
  {
    assert NightLocks(req.hotelId, req.checkIn, req.checkOut) == {};
  }

  /** The checkout day is not locked by a booking: when the nights from
      `checkIn` to `checkOut` are free, a stay ending on day d and one
      starting on day d for the same hotel both go through. */
  lemma {:induction false} BackToBackStaysBothBooked(
    st: Snapshot, u1: UserId, u2: UserId, hotelId: HotelId,
    checkIn: int, day: int, checkOut: int, cost1: int, cost2: int, catalog: map<HotelId, int>)
    requires Valid(st) && NightsFree(st.locks, hotelId, checkIn, checkOut)
    requires hotelId in catalog
    requires checkIn < day < checkOut
    ensures var r1 := Book(st, Some(u1), BookingRequest(hotelId, checkIn, day, Some(cost1)), None, catalog);
            var r2 := Book(r1.state, Some(u2), BookingRequest(hotelId, day, checkOut, Some(cost2)), None, catalog);
            r1.reply == Confirmed && r2.reply == Confirmed
  {
    var r1 := Book(st, Some(u1), BookingRequest(hotelId, checkIn, day, Some(cost1)), None, catalog);
    assert r1.reply == Confirmed;
    forall d | day <= d < checkOut
      ensures Lock(hotelId, d) !in r1.state.locks
    {
      NightLocksMember(hotelId, checkIn, day, Lock(hotelId, d));
    }
  }
}

/** The database the booking and payment controllers share, as one object
    whose three collections the handlers update in place. Each method
    carries out one handler step by step and is proved to have exactly
    the effect the matching function of `Bookings` or `Payments` gives,
    so the properties proved there hold of the store; `Valid` is kept by
    every call. */
module Store {

  import opened Wrappers
  import opened Ledger
  import Dates
  import Pricing
  import Strings
  import Bookings
  import Payments

  class BookingStore {
    /** The HotelAvailability collection. */
    var locks: set<Lock>
    /** The Booking collection, in insertion order. */
    var bookings: seq<Booking>
    /** The PaymentIntent collection, keyed by orderId. */
    var intents: map<OrderId, PaymentIntent>

    /** The content of the three collections. */
    function State(): Snapshot
      reads this
    {
      Snapshot(locks, bookings, intents)
    }

    ghost predicate Valid()
      reads this
    {
      Ledger.Valid(State())
    }

    /** An empty database. */
    constructor ()
      ensures State() == Snapshot({}, [], map[])
      ensures Valid()
    {
      locks := {};
      bookings := [];
      intents := map[];
      new;
      EmptyValid();
    }

    /** Claims the night locks of a stay: lists the nights, builds one lock
        document per night and inserts the batch. On success the locks
        are the old ones plus the stay's nights; otherwise nothing
        changes and the nights were not all free. It is a step inside
        the transactions of `CreateBooking` and `RunAttempt`, not a
        handler: locks without their booking break `Valid`, which those
        two restore by appending the booking or undoing the claim. */
    method ClaimNights(hotelId: HotelId, checkIn: int, checkOut: int) returns (ok: bool)
      modifies this
      ensures ok <==> NightsFree(old(locks), hotelId, checkIn, checkOut)
      ensures ok ==> locks == old(locks) + NightLocks(hotelId, checkIn, checkOut)
      ensures !ok ==> locks == old(locks)
      ensures bookings == old(bookings) && intents == old(intents)
    {
      var dates := Dates.GetDatesBetween(checkIn, checkOut);
      var docs := LockDocs(hotelId, dates);
      StayDocs(locks, hotelId, checkIn, checkOut, dates);
      var staged;
      ok, staged := InsertMany(locks, docs);
      if ok {
        locks := staged;
      }
    }

    /** `createBooking`. */
    method CreateBooking(userId: Option<UserId>, req: Bookings.BookingRequest,
                         fault: Option<Failure>, catalog: map<HotelId, int>)
      returns (reply: Bookings.BookingReply)
      requires Valid()
      modifies this
      ensures Bookings.Outcome(State(), reply) == Bookings.Book(old(State()), userId, req, fault, catalog)
      ensures Valid()
    {
      Bookings.BookKeepsValid(State(), userId, req, fault, catalog);
      if userId.None? {
        return Bookings.Unauthorized;
      }
      if fault.Some? {
        return Bookings.CatchReply(fault.value);
      }
      if req.hotelId !in catalog {
        return Bookings.HotelNotFound;
      }
      var before := State();
      var ok := ClaimNights(req.hotelId, req.checkIn, req.checkOut);
      if !ok {
        return Bookings.CatchReply(DuplicateKey);
      }
      if req.totalCost.None? {
        // Booking.create fails validation and the transaction is aborted
        locks := before.locks;
        return Bookings.CatchReply(ValidationFailure);
      }
      var b := Bookings.NewBooking(before, userId.value, req);
      bookings := bookings + [b];
      reply := Bookings.Confirmed;
    }

    /** `createOrder`: the error the hotel lookup throws, if any, the
        provider's answer `sessionId` and the generated `orderId` are
        inputs. */
    method CreateOrder(userId: Option<UserId>, req: Payments.OrderRequest, fault: Option<Failure>,
                       orderId: OrderId, sessionId: Option<string>, catalog: map<HotelId, int>)
      returns (reply: Payments.OrderReply)
      requires Valid()
      modifies this
      ensures Payments.OrderOutcome(State(), reply)
           == Payments.CreateOrder(old(State()), userId, req, fault, orderId, sessionId, catalog)
      ensures Valid()
    {
      Payments.CreateOrderKeepsValid(State(), userId, req, fault, orderId, sessionId, catalog);
      if userId.None? {
        return Payments.OrderUnauthorized;
      }
      if fault.Some? {
        return Payments.OrderFailed;
      }
      if req.hotelId !in catalog {
        return Payments.OrderHotelNotFound;
      }
      var pricing := Pricing.CalculateTotalAmount(catalog[req.hotelId], req.checkIn, req.checkOut);
      if pricing.Err? || !Strings.Truthy(sessionId) {
        return Payments.OrderFailed;
      }
      if req.adultCount.None? || req.childCount.None? || orderId in intents {
        return Payments.OrderFailed;
      }
      intents := intents[orderId := Payments.NewIntent(orderId, userId.value, req, pricing.value.total)];
      reply := Payments.OrderCreated(orderId, sessionId.value);
    }

    /** One attempt of the `confirmPayment` loop: a transaction that either
        commits, with a response, or throws `error` and is rolled back. */
    method RunAttempt(orderId: OrderId, orderStatus: Option<string>, fault: Option<Failure>,
                      catalog: map<HotelId, int>)
      returns (reply: Payments.ConfirmReply, error: Option<Failure>)
      modifies this
      ensures var out := Payments.Attempt(old(State()), orderId, orderStatus, fault, catalog);
              if out.Done? then error.None? && State() == out.state && reply == out.reply
              else error == Some(out.error) && State() == old(State())
    {
      reply := Payments.ConfirmFailed;
      error := None;
      if fault.Some? {
        error := fault;
        return;
      }
      if orderId !in intents {
        reply := Payments.IntentNotFound;
        return;
      }
      var it := intents[orderId];
      if Payments.Settled(it) {
        reply := Payments.AlreadyConfirmed(it.bookingId.value);
        return;
      }
      if !Payments.ReportsPaid(orderStatus) {
        intents := intents[orderId := it.(status := Failed)];
        reply := Payments.PaymentNotCompleted(orderStatus);
        return;
      }
      if it.hotelId !in catalog {
        reply := Payments.ConfirmHotelNotFound;
        return;
      }
      var before := State();
      var ok := ClaimNights(it.hotelId, it.checkIn, it.checkOut);
      if !ok {
        error := Some(DuplicateKey);
        return;
      }
      var b := Payments.PaidBooking(before, it);
      bookings := bookings + [b];
      intents := intents[orderId := it.(status := Paid, bookingId := Some(b.id))];
      reply := Payments.BookingCreated(b.id);
    }

    /** `confirmPayment`: a missing orderId is refused with 400 before any
        transaction; otherwise the retry loop runs. `orderStatus` is the
        provider's answer and `faults[i]` the error attempt `i + 1`
        throws, if any. */
    method ConfirmPayment(orderId: OrderId, orderStatus: Option<string>,
                          faults: seq<Option<Failure>>, catalog: map<HotelId, int>)
      returns (reply: Payments.ConfirmReply, backoffs: seq<int>)
      requires Valid()
      modifies this
      ensures Payments.Confirmation(State(), reply, backoffs)
           == Payments.Confirm(old(State()), orderId, orderStatus, faults, catalog)
      ensures Valid()
    {
      Payments.ConfirmKeepsValid(State(), orderId, orderStatus, faults, catalog);
      if orderId == "" {
        return Payments.OrderIdRequired, [];
      }
      reply, backoffs := RetryTransaction(orderId, orderStatus, faults, catalog);
    }

    /** The loop of `confirmPayment`: at most `MaxRetries` attempts; a
        transient error is followed by a wait of `100 * attempt` ms and
        another attempt, any other error, or the last attempt's, by a 500.
        `backoffs` are the waits made. */
    method RetryTransaction(orderId: OrderId, orderStatus: Option<string>,
                            faults: seq<Option<Failure>>, catalog: map<HotelId, int>)
      returns (reply: Payments.ConfirmReply, backoffs: seq<int>)
      modifies this
      ensures Payments.Confirmation(State(), reply, backoffs)
           == Payments.Retry(old(State()), orderId, orderStatus, faults, catalog, 1, [])
    {
      ghost var st0 := State();
      ghost var whole := Payments.Retry(st0, orderId, orderStatus, faults, catalog, 1, []);
      backoffs := [];
      var attempt := 1;
      while attempt <= Payments.MaxRetries
        invariant 1 <= attempt <= Payments.MaxRetries + 1
        invariant State() == st0
        invariant attempt <= Payments.MaxRetries ==>
                    whole == Payments.Retry(st0, orderId, orderStatus, faults, catalog, attempt, backoffs)
        invariant attempt == Payments.MaxRetries + 1 ==>
                    whole == Payments.Confirmation(st0, Payments.ConfirmFailed, backoffs)
        decreases Payments.MaxRetries + 1 - attempt
      {
        var r, error := RunAttempt(orderId, orderStatus, Payments.FaultAt(faults, attempt), catalog);
        if error.None? {
          return r, backoffs;
        }
        if !Payments.IsTransient(error.value) || attempt == Payments.MaxRetries {
          return Payments.ConfirmFailed, backoffs;
        }
        backoffs := backoffs + [Payments.Backoff(attempt)];
        attempt := attempt + 1;
      }
      reply := Payments.ConfirmFailed;
    }
  }
}

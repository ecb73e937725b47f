/** The paid booking path. `createOrder` prices the stay, opens an order
    with the payment provider and records a PaymentIntent in state
    `created`. `confirmPayment` asks the provider for the order's status
    and, inside one transaction, either marks the intent `failed` or
    claims the nights, creates the booking and marks the intent `paid`
    with the booking's id; it retries the whole transaction, at most three
    times, when the storage reports a transient error. The provider's
    answers, and the errors storage calls throw, are inputs here. */
module Payments {

  import opened Wrappers
  import opened Ledger
  import Pricing
  import Strings

  // ---------------------------------------------------------------- createOrder

  /** The responses of `createOrder`. */
  datatype OrderReply =
    | OrderCreated(orderId: OrderId, paymentSessionId: string)
    | OrderUnauthorized
    | OrderHotelNotFound
    | OrderFailed

  function OrderStatusCode(r: OrderReply): int
  {
    match r
    case OrderCreated(_, _) => 200
    case OrderUnauthorized => 401
    case OrderHotelNotFound => 404
    case OrderFailed => 500
  }

  /** The request body; guest counts are absent when the client sent none. */
  datatype OrderRequest = OrderRequest(
    hotelId: HotelId,
    checkIn: int,
    checkOut: int,
    adultCount: Option<int>,
    childCount: Option<int>)

  datatype OrderOutcome = OrderOutcome(state: Snapshot, reply: OrderReply)

  /** The intent `createOrder` stores: the request's stay and guest
      counts, the priced `total`, INR, state `created`, no booking yet.
      Such an intent is not settled, so its first confirmation asks the
      provider, and it is linked correctly whatever the bookings are. */
  function NewIntent(orderId: OrderId, userId: UserId, req: OrderRequest, total: int): (it: PaymentIntent)
    requires req.adultCount.Some? && req.childCount.Some?
    ensures it.orderId == orderId && it.userId == userId && it.amount == total
    ensures it.hotelId == req.hotelId && it.checkIn == req.checkIn && it.checkOut == req.checkOut
    ensures it.status == DefaultIntentStatus && it.currency == DefaultCurrency && !Settled(it)
    ensures forall bs :: IntentLinked(bs, it)
  {
    PaymentIntent(orderId, userId, req.hotelId, req.checkIn, req.checkOut,
                  req.adultCount.value, req.childCount.value, total, DefaultCurrency, Created, None)
  }

  /** One `createOrder` call. `fault` is an error the hotel lookup throws
      (a malformed hotel id, an unreachable database), if any; `orderId`
      is the id the handler generates for the order, `sessionId` the
      `payment_session_id` the provider answered with (absent when it
      answered without one or failed), and `catalog` maps each hotel to
      its nightly price. 401 without a user, then 500 when the lookup
      throws, then 404 for an unknown hotel; any later failure is a 500.
      Only a request that gets a session id, and whose intent passes the
      schema, stores an intent; nothing else is written. */
  function CreateOrder(st: Snapshot, userId: Option<UserId>, req: OrderRequest, fault: Option<Failure>,
                       orderId: OrderId, sessionId: Option<string>, catalog: map<HotelId, int>): (r: OrderOutcome)
    ensures r.state.locks == st.locks && r.state.bookings == st.bookings
    ensures !r.reply.OrderCreated? ==> r.state == st
    ensures userId.None? ==> r.reply == OrderUnauthorized
    ensures userId.Some? && fault.Some? ==> r.reply == OrderFailed
    ensures userId.Some? && fault.None? && req.hotelId !in catalog ==> r.reply == OrderHotelNotFound
    ensures userId.Some? && fault.None? && req.hotelId in catalog && !r.reply.OrderCreated? ==> r.reply == OrderFailed
    ensures r.reply.OrderCreated? <==>
              userId.Some? && fault.None? && req.hotelId in catalog && req.checkIn < req.checkOut
              && Strings.Truthy(sessionId) && req.adultCount.Some? && req.childCount.Some?
              && orderId !in st.intents
    ensures r.reply.OrderCreated? ==>
              && r.reply == OrderCreated(orderId, sessionId.value)
              && r.state.intents == st.intents[orderId := NewIntent(orderId, userId.value, req,
                   Pricing.CalculateTotalAmount(catalog[req.hotelId], req.checkIn, req.checkOut).value.total)]
  {
    if userId.None? then
      OrderOutcome(st, OrderUnauthorized)
    else if fault.Some? then
      // the generic catch
      OrderOutcome(st, OrderFailed)
    else if req.hotelId !in catalog then
      OrderOutcome(st, OrderHotelNotFound)
    else
      var pricing := Pricing.CalculateTotalAmount(catalog[req.hotelId], req.checkIn, req.checkOut);
      if pricing.Err? then
        // the thrown "Invalid date range" reaches the generic catch
        OrderOutcome(st, OrderFailed)
      else if !Strings.Truthy(sessionId) then
        OrderOutcome(st, OrderFailed)
      else if req.adultCount.None? || req.childCount.None? || orderId in st.intents then
        // PaymentIntent.create throws: a required field or the unique orderId
        OrderOutcome(st, OrderFailed)
      else
        var it := NewIntent(orderId, userId.value, req, pricing.value.total);
        OrderOutcome(st.(intents := st.intents[orderId := it]), OrderCreated(orderId, sessionId.value))
  }

  /** The intent a successful call stores is a fresh `created` order for
      the requested stay and guests, priced by the controller's pricing
      in INR, with no booking; every other intent is kept. */
  lemma CreatedOrderIntent(st: Snapshot, userId: Option<UserId>, req: OrderRequest, fault: Option<Failure>,
                           orderId: OrderId, sessionId: Option<string>, catalog: map<HotelId, int>)
    requires CreateOrder(st, userId, req, fault, orderId, sessionId, catalog).reply.OrderCreated?
    ensures var r := CreateOrder(st, userId, req, fault, orderId, sessionId, catalog);
            && r.state.intents.Keys == st.intents.Keys + {orderId}
            && (forall o :: o in st.intents ==> r.state.intents[o] == st.intents[o])
            && var it := r.state.intents[orderId];
               && it.orderId == orderId && it.userId == userId.value && it.hotelId == req.hotelId
               && it.checkIn == req.checkIn && it.checkOut == req.checkOut
               && Some(it.adultCount) == req.adultCount && Some(it.childCount) == req.childCount
               && it.status == Created && it.bookingId.None? && it.currency == DefaultCurrency
               && it.amount == Pricing.CalculateTotalAmount(catalog[req.hotelId], req.checkIn, req.checkOut).value.total
  {
  }

  /** Recording a new intent keeps the store valid. */
  lemma CreateOrderKeepsValid(st: Snapshot, userId: Option<UserId>, req: OrderRequest, fault: Option<Failure>,
                              orderId: OrderId, sessionId: Option<string>, catalog: map<HotelId, int>)
    requires Valid(st)
    ensures Valid(CreateOrder(st, userId, req, fault, orderId, sessionId, catalog).state)
  {
  }

  // ------------------------------------------------------------ confirmPayment

  /** The responses of `confirmPayment`. */
  datatype ConfirmReply =
    | OrderIdRequired
    | IntentNotFound
    | AlreadyConfirmed(bookingId: BookingId)
    | PaymentNotCompleted(orderStatus: Option<string>)
    | ConfirmHotelNotFound
    | BookingCreated(bookingId: BookingId)
    | ConfirmFailed

  function ConfirmStatusCode(r: ConfirmReply): int
  {
    match r
    case OrderIdRequired => 400
    case IntentNotFound => 404
    case AlreadyConfirmed(_) => 200
    case PaymentNotCompleted(_) => 400
    case ConfirmHotelNotFound => 404
    case BookingCreated(_) => 200
    case ConfirmFailed => 500
  }

  /** The provider statuses that count as paid, in capitals: an absent
      status counts as unpaid, and so does any other string. */
  const PaidStatuses: set<string> := {"PAID", "COMPLETED", "SUCCESS"}

  function ReportsPaid(orderStatus: Option<string>): (b: bool)
    ensures b <==> orderStatus.Some? && orderStatus.value in PaidStatuses
  {
    orderStatus == Some("PAID") || orderStatus == Some("COMPLETED") || orderStatus == Some("SUCCESS")
  }

  /** An error worth retrying: it carries the `TransientTransactionError`
      label or the `WriteConflict` code name. */
  function IsTransient(e: Failure): (b: bool)
    ensures "TransientTransactionError" in e.labels ==> b
    ensures e.codeName == "WriteConflict" ==> b
    ensures b ==> "TransientTransactionError" in e.labels || e.codeName == "WriteConflict"
  {
    "TransientTransactionError" in e.labels || e.codeName == "WriteConflict"
  }

  /** The number of attempts the retry loop makes at most. */
  const MaxRetries: nat := 3

  /** The wait before the attempt after attempt `attempt`, in ms. */
  function Backoff(attempt: int): int
  {
    100 * attempt
  }

  /** One transaction: it commits with a response, or throws. */
  datatype AttemptOutcome =
    | Done(state: Snapshot, reply: ConfirmReply)
    | Threw(error: Failure)

  /** The booking a successful confirmation writes for intent `it`: the
      next free id, the intent's user, stay and amount, so that it is the
      booking the intent paid for, and the default status. */
  function PaidBooking(st: Snapshot, it: PaymentIntent): (b: Booking)
    ensures BookedFor(b, it) && b.status == DefaultBookingStatus
    ensures IdsAreIndices(st.bookings) ==> IdsAreIndices(st.bookings + [b])
    ensures BookingLocks(b) == NightLocks(it.hotelId, it.checkIn, it.checkOut)
  {
    Booking(|st.bookings|, it.hotelId, it.userId, it.checkIn, it.checkOut, it.amount, DefaultBookingStatus)
  }

  /** An intent that is paid and linked to its booking: a confirmation
      returns it as it is. */
  predicate Settled(it: PaymentIntent)
  {
    it.status == Paid && it.bookingId.Some?
  }

  /** The body of one attempt of the retry loop, on store `st`. `fault` is
      an error one of its storage calls (or the provider call) throws, if
      any; a throwing attempt is aborted and writes nothing. A paid intent
      with a booking is returned as it is; any other intent is re-queried,
      a `failed` one included. */
  function Attempt(st: Snapshot, orderId: OrderId, orderStatus: Option<string>,
                   fault: Option<Failure>, catalog: map<HotelId, int>): (r: AttemptOutcome)
    ensures fault.Some? ==> r == Threw(fault.value)
    ensures r.Done? ==> !r.reply.ConfirmFailed? && !r.reply.OrderIdRequired?
    ensures fault.None? ==> (orderId !in st.intents <==> r == Done(st, IntentNotFound))
    ensures fault.None? && orderId in st.intents ==>
              var it := st.intents[orderId];
              && (Settled(it) ==> r == Done(st, AlreadyConfirmed(it.bookingId.value)))
              && (!Settled(it) && !ReportsPaid(orderStatus) ==>
                    r.Done? && r.reply == PaymentNotCompleted(orderStatus))
              && (!Settled(it) && ReportsPaid(orderStatus) && it.hotelId !in catalog ==>
                    r == Done(st, ConfirmHotelNotFound))
              && (!Settled(it) && ReportsPaid(orderStatus) && it.hotelId in catalog ==>
                    if NightsFree(st.locks, it.hotelId, it.checkIn, it.checkOut)
                    then r.Done? && r.reply == BookingCreated(|st.bookings|)
                    else r == Threw(DuplicateKey))
    ensures r.Done? && !r.reply.BookingCreated? && !r.reply.PaymentNotCompleted? ==> r.state == st
    ensures r.Done? && r.reply.PaymentNotCompleted? ==>
              && orderId in st.intents && !ReportsPaid(orderStatus)
              && r.state == st.(intents := st.intents[orderId := st.intents[orderId].(status := Failed)])
    ensures r.Done? && r.reply.BookingCreated? ==>
              && orderId in st.intents && ReportsPaid(orderStatus)
              && var it := st.intents[orderId];
                 && NightsFree(st.locks, it.hotelId, it.checkIn, it.checkOut)
                 && r.reply.bookingId == |st.bookings|
                 && r.state.locks == st.locks + NightLocks(it.hotelId, it.checkIn, it.checkOut)
                 && r.state.bookings == st.bookings + [PaidBooking(st, it)]
                 && r.state.intents == st.intents[orderId := it.(status := Paid, bookingId := Some(|st.bookings|))]
    ensures r.Threw? && fault.None? ==> r.error == DuplicateKey
  {
    if fault.Some? then
      Threw(fault.value)
    else if orderId !in st.intents then
      Done(st, IntentNotFound)
    else
      var it := st.intents[orderId];
      if Settled(it) then
        Done(st, AlreadyConfirmed(it.bookingId.value))
      else if !ReportsPaid(orderStatus) then
        Done(st.(intents := st.intents[orderId := it.(status := Failed)]), PaymentNotCompleted(orderStatus))
      else if it.hotelId !in catalog then
        Done(st, ConfirmHotelNotFound)
      else if !NightsFree(st.locks, it.hotelId, it.checkIn, it.checkOut) then
        Threw(DuplicateKey)
      else
        var b := PaidBooking(st, it);
        Done(Snapshot(st.locks + BookingLocks(b), st.bookings + [b],
                      st.intents[orderId := it.(status := Paid, bookingId := Some(b.id))]),
             BookingCreated(b.id))
  }

  /** An attempt that was aborted by an error worth retrying. */
  predicate ThrewTransient(out: AttemptOutcome)
  {
    out.Threw? && IsTransient(out.error)
  }

  /** The error attempt number `attempt` (from 1) throws, if any. */
  function FaultAt(faults: seq<Option<Failure>>, attempt: int): Option<Failure>
  {
    if 1 <= attempt <= |faults| then faults[attempt - 1] else None
  }

  /** The outcome of a whole `confirmPayment` call: the store afterwards,
      the response and the waits made between attempts. */
  datatype Confirmation = Confirmation(state: Snapshot, reply: ConfirmReply, backoffs: seq<int>)

  /** The retry loop from attempt `attempt` on, after the waits `waited`.
      Aborted attempts write nothing, so every attempt starts from the
      same store `st`. */
  function Retry(st: Snapshot, orderId: OrderId, orderStatus: Option<string>,
                 faults: seq<Option<Failure>>, catalog: map<HotelId, int>,
                 attempt: nat, waited: seq<int>): (r: Confirmation)
    requires 1 <= attempt <= MaxRetries
    decreases MaxRetries - attempt
    ensures r.reply.ConfirmFailed? ==> r.state == st
    ensures !r.reply.OrderIdRequired?
  {
    match Attempt(st, orderId, orderStatus, FaultAt(faults, attempt), catalog)
    case Done(st', reply) => Confirmation(st', reply, waited)
    case Threw(e) =>
      if !IsTransient(e) || attempt == MaxRetries then
        Confirmation(st, ConfirmFailed, waited)
      else
        Retry(st, orderId, orderStatus, faults, catalog, attempt + 1, waited + [Backoff(attempt)])
  }

  /** The waits of the loop from attempt `attempt` on: the ones made
      before are kept, and a wait of `100 * n` ms follows each further
      attempt `n` except the last, which is at most attempt 3. */
  lemma {:induction false} RetryBackoffs(st: Snapshot, orderId: OrderId, orderStatus: Option<string>,
                                         faults: seq<Option<Failure>>, catalog: map<HotelId, int>,
                                         attempt: nat, waited: seq<int>)
    requires 1 <= attempt <= MaxRetries
    decreases MaxRetries - attempt
    ensures var r := Retry(st, orderId, orderStatus, faults, catalog, attempt, waited);
            && |waited| <= |r.backoffs| && r.backoffs[..|waited|] == waited
            && attempt + |r.backoffs| - |waited| <= MaxRetries
            && (forall k :: |waited| <= k < |r.backoffs| ==> r.backoffs[k] == Backoff(attempt + k - |waited|))
  {
    var out := Attempt(st, orderId, orderStatus, FaultAt(faults, attempt), catalog);
    if out.Threw? && IsTransient(out.error) && attempt < MaxRetries {
      var w' := waited + [Backoff(attempt)];
      RetryBackoffs(st, orderId, orderStatus, faults, catalog, attempt + 1, w');
      var r := Retry(st, orderId, orderStatus, faults, catalog, attempt + 1, w');
      assert r.backoffs[..|waited|] == w'[..|waited|] == waited by {
        assert r.backoffs[..|w'|] == w';
      }
      assert r.backoffs[|waited|] == w'[|waited|] by {
        assert r.backoffs[..|w'|] == w';
      }
    }
  }

  /** What the loop from attempt `attempt` on does: every attempt before
      the one numbered `last` threw a transient error, and `last` either
      committed (and its result is the call's) or failed for good (a 500
      with the store untouched): it threw an error that is not
      transient, or it was attempt 3. */
  lemma {:induction false} RetryOutcome(st: Snapshot, orderId: OrderId, orderStatus: Option<string>,
                                        faults: seq<Option<Failure>>, catalog: map<HotelId, int>,
                                        attempt: nat, waited: seq<int>)
    requires 1 <= attempt <= MaxRetries
    decreases MaxRetries - attempt
    ensures var r := Retry(st, orderId, orderStatus, faults, catalog, attempt, waited);
            var last := attempt + |r.backoffs| - |waited|;
            && (forall n :: attempt <= n < last ==>
                  ThrewTransient(Attempt(st, orderId, orderStatus, FaultAt(faults, n), catalog)))
            && (r.reply == ConfirmFailed ==> r.state == st)
            && (r.reply == ConfirmFailed ==>
                  var out := Attempt(st, orderId, orderStatus, FaultAt(faults, last), catalog);
                  out.Threw? && (!IsTransient(out.error) || last == MaxRetries))
            && (r.reply != ConfirmFailed ==>
                  Attempt(st, orderId, orderStatus, FaultAt(faults, last), catalog) == Done(r.state, r.reply))
  {
    var out := Attempt(st, orderId, orderStatus, FaultAt(faults, attempt), catalog);
    if out.Threw? && IsTransient(out.error) && attempt < MaxRetries {
      var w' := waited + [Backoff(attempt)];
      RetryOutcome(st, orderId, orderStatus, faults, catalog, attempt + 1, w');
    }
  }

  /** One `confirmPayment` call. A missing orderId is refused before any
      transaction. Otherwise the attempts run from 1: every attempt before
      the last threw a transient error and was followed by a wait of
      `100 * attempt` ms; the last either committed, and its result is the
      call's, or failed for good, and the call answers 500 with the store
      untouched. */
  function Confirm(st: Snapshot, orderId: OrderId, orderStatus: Option<string>,
                   faults: seq<Option<Failure>>, catalog: map<HotelId, int>): (r: Confirmation)
    ensures orderId == "" ==> r == Confirmation(st, OrderIdRequired, [])
    ensures orderId != "" ==>
              && |r.backoffs| < MaxRetries
              && (forall k :: 0 <= k < |r.backoffs| ==> r.backoffs[k] == Backoff(k + 1))
              && (forall n :: 1 <= n <= |r.backoffs| ==>
                    ThrewTransient(Attempt(st, orderId, orderStatus, FaultAt(faults, n), catalog)))
              && (r.reply == ConfirmFailed ==> r.state == st)
              && (r.reply == ConfirmFailed ==>
                    var out := Attempt(st, orderId, orderStatus, FaultAt(faults, |r.backoffs| + 1), catalog);
                    out.Threw? && (!IsTransient(out.error) || |r.backoffs| + 1 == MaxRetries))
              && (r.reply != ConfirmFailed ==>
                    Attempt(st, orderId, orderStatus, FaultAt(faults, |r.backoffs| + 1), catalog)
                      == Done(r.state, r.reply))
  {
    if orderId == "" then
      Confirmation(st, OrderIdRequired, [])
    else
      RetryBackoffs(st, orderId, orderStatus, faults, catalog, 1, []);
      RetryOutcome(st, orderId, orderStatus, faults, catalog, 1, []);
      Retry(st, orderId, orderStatus, faults, catalog, 1, [])
  }

  /** The backoffs of a call are 100 ms, then 200 ms: at most three
      attempts, waiting `100 * attempt` ms after a transient failure. */
  lemma ConfirmBackoffs(st: Snapshot, orderId: OrderId, orderStatus: Option<string>,
                        faults: seq<Option<Failure>>, catalog: map<HotelId, int>)
    ensures var ds := Confirm(st, orderId, orderStatus, faults, catalog).backoffs;
            ds == [100, 200][..|ds|]
  {
    var ds := Confirm(st, orderId, orderStatus, faults, catalog).backoffs;
    if orderId != "" {
      assert |ds| <= 2;
      if |ds| >= 1 { assert ds[0] == Backoff(1); }
      if |ds| == 2 { assert ds[1] == Backoff(2); }
    }
  }

  /** Every outcome of a confirmation keeps the store valid. */
  lemma {:induction false} AttemptKeepsValid(st: Snapshot, orderId: OrderId, orderStatus: Option<string>,
                                             fault: Option<Failure>, catalog: map<HotelId, int>)
    requires Valid(st)
    ensures var r := Attempt(st, orderId, orderStatus, fault, catalog);
            r.Done? ==> Valid(r.state)
  {
    var r := Attempt(st, orderId, orderStatus, fault, catalog);
    if r.Done? && r.reply.PaymentNotCompleted? {
      var it := st.intents[orderId];
      assert it.status != Paid || it.bookingId.None?;
      assert IntentLinked(st.bookings, it);
      var intents' := st.intents[orderId := it.(status := Failed)];
      forall o | o in intents'
        ensures IntentLinked(st.bookings, intents'[o])
      {
        if o != orderId { assert IntentLinked(st.bookings, st.intents[o]); }
      }
      assert ValidIntents(st.bookings, intents');
    } else if r.Done? && r.reply.BookingCreated? {
      var it := st.intents[orderId];
      var b := PaidBooking(st, it);
      var bs' := st.bookings + [b];
      var it' := it.(status := Paid, bookingId := Some(b.id));
      var intents' := st.intents[orderId := it'];
      ClaimKeepsLedger(st.locks, st.bookings, b);
      AppendKeepsLinks(st.bookings, b, st.intents);
      assert it.bookingId.None? by {
        assert IntentLinked(st.bookings, it);
      }
      forall o | o in intents'
        ensures IntentLinked(bs', intents'[o])
      {
        if o != orderId { assert IntentLinked(bs', st.intents[o]); }
      }
      forall o1, o2 | o1 in intents' && o2 in intents' && o1 != o2 && intents'[o1].bookingId.Some?
        ensures intents'[o1].bookingId != intents'[o2].bookingId
      {
        if o1 == orderId {
          assert IntentLinked(st.bookings, st.intents[o2]);
        } else if o2 == orderId {
          assert IntentLinked(st.bookings, st.intents[o1]);
        }
      }
      assert ValidIntents(bs', intents');
    }
  }

  lemma ConfirmKeepsValid(st: Snapshot, orderId: OrderId, orderStatus: Option<string>,
                          faults: seq<Option<Failure>>, catalog: map<HotelId, int>)
    requires Valid(st)
    ensures Valid(Confirm(st, orderId, orderStatus, faults, catalog).state)
  {
    var r := Confirm(st, orderId, orderStatus, faults, catalog);
    if orderId != "" && r.reply != ConfirmFailed {
      AttemptKeepsValid(st, orderId, orderStatus, FaultAt(faults, |r.backoffs| + 1), catalog);
    }
  }

  /** Idempotent replay: once a call has created booking `id`, a later call
      for the same order writes nothing and, unless its storage calls fail,
      answers with the same `id`, whatever the provider now says. */
  lemma {:induction false} ReplayReturnsSameBooking(
    st: Snapshot, orderId: OrderId, orderStatus: Option<string>, faults: seq<Option<Failure>>,
    catalog: map<HotelId, int>, orderStatus2: Option<string>, faults2: seq<Option<Failure>>,
    catalog2: map<HotelId, int>)
    requires Valid(st)
    requires Confirm(st, orderId, orderStatus, faults, catalog).reply.BookingCreated?
    ensures var r1 := Confirm(st, orderId, orderStatus, faults, catalog);
            var r2 := Confirm(r1.state, orderId, orderStatus2, faults2, catalog2);
            && r2.state == r1.state
            && (r2.reply == AlreadyConfirmed(r1.reply.bookingId) || r2.reply == ConfirmFailed)
            && (faults2 == [] ==> r2.reply == AlreadyConfirmed(r1.reply.bookingId))
  {
    var r1 := Confirm(st, orderId, orderStatus, faults, catalog);
    var st1 := r1.state;
    assert orderId != "";
    assert Attempt(st, orderId, orderStatus, FaultAt(faults, |r1.backoffs| + 1), catalog) == Done(st1, r1.reply);
    assert st1.intents[orderId].status == Paid && st1.intents[orderId].bookingId == Some(r1.reply.bookingId);
    var r2 := Confirm(st1, orderId, orderStatus2, faults2, catalog2);
    if r2.reply != ConfirmFailed {
      var k := |r2.backoffs| + 1;
      var out := Attempt(st1, orderId, orderStatus2, FaultAt(faults2, k), catalog2);
      assert out == Done(r2.state, r2.reply);
      assert FaultAt(faults2, k).None?;
    }
    if faults2 == [] {
      assert FaultAt(faults2, 1) == None;
    }
  }

  /** The happy path: a `created` intent whose order the provider reports
      paid, for a known hotel whose nights are still free, is booked on
      the first attempt. The nights are locked, the booking is appended
      with the next id, and the intent becomes `paid` and points at it. */
  lemma CreatedIntentIsBooked(st: Snapshot, orderId: OrderId, orderStatus: Option<string>,
                              catalog: map<HotelId, int>)
    requires orderId != "" && orderId in st.intents && st.intents[orderId].status == Created
    requires ReportsPaid(orderStatus) && st.intents[orderId].hotelId in catalog
    requires var it := st.intents[orderId]; NightsFree(st.locks, it.hotelId, it.checkIn, it.checkOut)
    ensures var r := Confirm(st, orderId, orderStatus, [], catalog);
            var it := st.intents[orderId];
            && r.reply == BookingCreated(|st.bookings|) && ConfirmStatusCode(r.reply) == 200 && r.backoffs == []
            && r.state.locks == st.locks + NightLocks(it.hotelId, it.checkIn, it.checkOut)
            && r.state.bookings == st.bookings + [PaidBooking(st, it)]
            && r.state.intents == st.intents[orderId := it.(status := Paid, bookingId := Some(|st.bookings|))]
  {
    assert FaultAt([], 1) == None;
  }

  /** A `failed` intent is not final: a later call that finds the order paid
      and its nights free creates the booking and marks the intent paid. */
  lemma FailedIntentCanStillBePaid(st: Snapshot, orderId: OrderId, orderStatus: Option<string>,
                                   catalog: map<HotelId, int>)
    requires orderId != "" && orderId in st.intents && st.intents[orderId].status == Failed
    requires ReportsPaid(orderStatus) && st.intents[orderId].hotelId in catalog
    requires var it := st.intents[orderId]; NightsFree(st.locks, it.hotelId, it.checkIn, it.checkOut)
    ensures var r := Confirm(st, orderId, orderStatus, [], catalog);
            r.reply == BookingCreated(|st.bookings|) && r.state.intents[orderId].status == Paid
  {
    assert FaultAt([], 1) == None;
  }

  /** A provider status other than PAID, COMPLETED or SUCCESS marks the
      intent `failed`, answers 400 and claims nothing. */
  lemma UnpaidMarksFailed(st: Snapshot, orderId: OrderId, orderStatus: Option<string>,
                          catalog: map<HotelId, int>)
    requires orderId != "" && orderId in st.intents
    requires !(st.intents[orderId].status == Paid && st.intents[orderId].bookingId.Some?)
    requires !ReportsPaid(orderStatus)
    ensures var r := Confirm(st, orderId, orderStatus, [], catalog);
            && r.reply == PaymentNotCompleted(orderStatus) && ConfirmStatusCode(r.reply) == 400
            && r.state.locks == st.locks && r.state.bookings == st.bookings
            && r.state.intents[orderId].status == Failed
  {
    assert FaultAt([], 1) == None;
  }

  /** A night taken since the order was placed aborts the transaction with
      a duplicate-key error, which is not transient: the call answers 500
      at once and the intent stays as it was. */
  lemma TakenNightIsServerError(st: Snapshot, orderId: OrderId, orderStatus: Option<string>,
                                catalog: map<HotelId, int>, d: int)
    requires orderId != "" && orderId in st.intents
    requires st.intents[orderId].status != Paid
    requires ReportsPaid(orderStatus) && st.intents[orderId].hotelId in catalog
    requires var it := st.intents[orderId]; it.checkIn <= d < it.checkOut && Lock(it.hotelId, d) in st.locks
    ensures Confirm(st, orderId, orderStatus, [], catalog) == Confirmation(st, ConfirmFailed, [])
    ensures ConfirmStatusCode(ConfirmFailed) == 500
  {
    assert FaultAt([], 1) == None;
    assert !IsTransient(DuplicateKey);
  }

  /** An error that is not transient is never retried: the call answers
      500 after the first attempt and writes nothing. */
  lemma NonTransientNotRetried(st: Snapshot, orderId: OrderId, orderStatus: Option<string>,
                               faults: seq<Option<Failure>>, catalog: map<HotelId, int>)
    requires orderId != "" && |faults| >= 1 && faults[0].Some? && !IsTransient(faults[0].value)
    ensures Confirm(st, orderId, orderStatus, faults, catalog) == Confirmation(st, ConfirmFailed, [])
  {
    assert FaultAt(faults, 1) == faults[0];
  }

  /** Three transient failures in a row exhaust the loop: 500, nothing
      written, after waiting 100 ms and 200 ms. */
  lemma ThreeTransientFailuresGiveUp(st: Snapshot, orderId: OrderId, orderStatus: Option<string>,
                                     e1: Failure, e2: Failure, e3: Failure, catalog: map<HotelId, int>)
    requires orderId != "" && IsTransient(e1) && IsTransient(e2) && IsTransient(e3)
    ensures Confirm(st, orderId, orderStatus, [Some(e1), Some(e2), Some(e3)], catalog)
         == Confirmation(st, ConfirmFailed, [100, 200])
  {
    var faults := [Some(e1), Some(e2), Some(e3)];
    assert FaultAt(faults, 1) == Some(e1);
    assert FaultAt(faults, 2) == Some(e2);
    assert FaultAt(faults, 3) == Some(e3);
  }

  /** A transient failure followed by a clean attempt has the effect of
      the clean attempt alone. */
  lemma TransientThenCleanCommits(st: Snapshot, orderId: OrderId, orderStatus: Option<string>,
                                  e: Failure, catalog: map<HotelId, int>)
    requires orderId != "" && IsTransient(e)
    ensures var r := Confirm(st, orderId, orderStatus, [Some(e)], catalog);
            var clean := Confirm(st, orderId, orderStatus, [], catalog);
            r.state == clean.state && r.reply == clean.reply && r.backoffs == [100]
  {
    assert FaultAt([Some(e)], 1) == Some(e);
    assert FaultAt([Some(e)], 2) == None;
    assert FaultAt([], 1) == None;
  }
}

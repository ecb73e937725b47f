/** The three collections the booking and payment controllers write:
    HotelAvailability (one lock per hotel and night, unique on the pair),
    Booking (a reservation, its status defaulting to "confirmed", with no
    uniqueness of its own) and PaymentIntent (one per provider order,
    unique on orderId). A `Snapshot` is the content of all three at one
    moment; `Valid` is what every committed transaction keeps true. */
module Ledger {

  import opened Wrappers

  type HotelId = string
  type UserId = string
  type OrderId = string

  /** Stand-in for a fresh Booking `_id`: the booking's position in the
      collection, which only ever grows. */
  type BookingId = nat

  /** One HotelAvailability document: night `date` of hotel `hotelId` is
      taken. Both fields are required, so every lock has them. */
  datatype Lock = Lock(hotelId: HotelId, date: int)

  /** The `status` a new Booking gets when none is given. */
  const DefaultBookingStatus: string := "confirmed"

  /** One Booking document. `status` is a free string; the schema has no
      enum for it. */
  datatype Booking = Booking(
    id: BookingId,
    hotelId: HotelId,
    userId: UserId,
    checkIn: int,
    checkOut: int,
    totalCost: int,
    status: string)

  /** The three values the PaymentIntent `status` enum admits. */
  datatype IntentStatus = Created | Paid | Failed

  /** The `status` a new PaymentIntent gets when none is given. */
  const DefaultIntentStatus: IntentStatus := Created

  /** The `currency` a new PaymentIntent gets when none is given. */
  const DefaultCurrency: string := "INR"

  /** One PaymentIntent document. `bookingId` is optional and the schema
      does not tie it to `status`. */
  datatype PaymentIntent = PaymentIntent(
    orderId: OrderId,
    userId: UserId,
    hotelId: HotelId,
    checkIn: int,
    checkOut: int,
    adultCount: int,
    childCount: int,
    amount: int,
    currency: string,
    status: IntentStatus,
    bookingId: Option<BookingId>)

  /** The three collections. Locks form a set, which is exactly what the
      unique (hotelId, date) index makes of them; intents are keyed by
      their unique orderId. */
  datatype Snapshot = Snapshot(
    locks: set<Lock>,
    bookings: seq<Booking>,
    intents: map<OrderId, PaymentIntent>)

  /** An error a storage call throws: its numeric `code` (0 when it has
      none), its `codeName` and its error labels. */
  datatype Failure = Failure(code: int, codeName: string, labels: seq<string>)

  /** What inserting a document whose unique key already exists throws. */
  const DuplicateKey: Failure := Failure(11000, "DuplicateKey", [])

  /** What creating a document with a required field missing throws. */
  const ValidationFailure: Failure := Failure(0, "ValidationError", [])

  /** The locks for nights [checkIn, checkOut) of one hotel. */
  function NightLocks(hotelId: HotelId, checkIn: int, checkOut: int): set<Lock>
  {
    set d | checkIn <= d < checkOut :: Lock(hotelId, d)
  }

  /** The locks a booking's stay needs. */
  function BookingLocks(b: Booking): set<Lock>
  {
    NightLocks(b.hotelId, b.checkIn, b.checkOut)
  }

  /** Booking `b` occupies night `d` of its hotel. */
  predicate Occupies(b: Booking, d: int)
  {
    b.checkIn <= d < b.checkOut
  }

  lemma NightLocksMember(hotelId: HotelId, checkIn: int, checkOut: int, l: Lock)
    ensures l in NightLocks(hotelId, checkIn, checkOut)
        <==> l.hotelId == hotelId && checkIn <= l.date < checkOut
  {
    if l.hotelId == hotelId && checkIn <= l.date < checkOut {
      assert l == Lock(hotelId, l.date);
    }
  }

  /** No night of [checkIn, checkOut) of the hotel is locked yet. */
  predicate NightsFree(locks: set<Lock>, hotelId: HotelId, checkIn: int, checkOut: int)
  {
    forall d :: checkIn <= d < checkOut ==> Lock(hotelId, d) !in locks
  }

  lemma NightsFreeIsDisjoint(locks: set<Lock>, hotelId: HotelId, checkIn: int, checkOut: int)
    ensures NightsFree(locks, hotelId, checkIn, checkOut)
        <==> locks !! NightLocks(hotelId, checkIn, checkOut)
  {
    if !NightsFree(locks, hotelId, checkIn, checkOut) {
      var d :| checkIn <= d < checkOut && Lock(hotelId, d) in locks;
      assert Lock(hotelId, d) in NightLocks(hotelId, checkIn, checkOut);
    }
  }

  /** The locks the bookings of `bs` hold between them. */
  function LocksOf(bs: seq<Booking>): set<Lock>
  {
    if bs == [] then {} else LocksOf(bs[..|bs| - 1]) + BookingLocks(bs[|bs| - 1])
  }

  lemma LocksOfAppend(bs: seq<Booking>, b: Booking)
    ensures LocksOf(bs + [b]) == LocksOf(bs) + BookingLocks(b)
  {
    assert (bs + [b])[..|bs|] == bs;
  }

  /** Every booking's nights are among the locks of the collection. */
  lemma {:induction false} LocksOfCovers(bs: seq<Booking>, i: int)
    requires 0 <= i < |bs|
    ensures BookingLocks(bs[i]) <= LocksOf(bs)
  {
    if i < |bs| - 1 {
      LocksOfCovers(bs[..|bs| - 1], i);
    }
  }

  /** Every lock of the collection belongs to some booking. */
  lemma {:induction false} LocksOfOwned(bs: seq<Booking>, l: Lock)
    requires l in LocksOf(bs)
    ensures exists i :: 0 <= i < |bs| && l in BookingLocks(bs[i])
  {
    if l !in BookingLocks(bs[|bs| - 1]) {
      LocksOfOwned(bs[..|bs| - 1], l);
      var i :| 0 <= i < |bs| - 1 && l in BookingLocks(bs[..|bs| - 1][i]);
      assert bs[..|bs| - 1][i] == bs[i];
    }
  }

  /** No two bookings of the collection hold the same lock. */
  ghost predicate Exclusive(bs: seq<Booking>)
  {
    forall i, j :: 0 <= i < j < |bs| ==> BookingLocks(bs[i]) !! BookingLocks(bs[j])
  }

  /** Booking ids are fresh: each is the booking's own position. */
  ghost predicate IdsAreIndices(bs: seq<Booking>)
  {
    forall i :: 0 <= i < |bs| ==> bs[i].id == i
  }

  /** The lock collection and the booking collection agree: the locks are
      exactly the nights of the bookings, and no night is held twice. */
  ghost predicate ValidLedger(locks: set<Lock>, bs: seq<Booking>)
  {
    && IdsAreIndices(bs)
    && locks == LocksOf(bs)
    && Exclusive(bs)
  }

  /** Booking `b` is the one intent `it` paid for. */
  predicate BookedFor(b: Booking, it: PaymentIntent)
  {
    && b.hotelId == it.hotelId
    && b.userId == it.userId
    && b.checkIn == it.checkIn
    && b.checkOut == it.checkOut
    && b.totalCost == it.amount
  }

  /** What payments.ts maintains for one intent: it has a bookingId exactly
      when it is paid, and that id names the booking made for it. */
  ghost predicate IntentLinked(bs: seq<Booking>, it: PaymentIntent)
  {
    && (it.bookingId.Some? <==> it.status == Paid)
    && (it.bookingId.Some? ==> it.bookingId.value < |bs| && BookedFor(bs[it.bookingId.value], it))
  }

  ghost predicate ValidIntents(bs: seq<Booking>, intents: map<OrderId, PaymentIntent>)
  {
    && (forall o :: o in intents ==> intents[o].orderId == o)
    && (forall o :: o in intents ==> IntentLinked(bs, intents[o]))
    && (forall o1, o2 :: o1 in intents && o2 in intents && o1 != o2 && intents[o1].bookingId.Some?
          ==> intents[o1].bookingId != intents[o2].bookingId)
  }

  /** What every committed transaction of the booking and payment
      controllers keeps true of the three collections. */
  ghost predicate Valid(st: Snapshot)
  {
    ValidLedger(st.locks, st.bookings) && ValidIntents(st.bookings, st.intents)
  }

  /** The empty store is valid. */
  lemma EmptyValid()
    ensures Valid(Snapshot({}, [], map[]))
  {
  }

  /** No double booking: two distinct bookings of one hotel in a valid
      store never occupy the same night. */
  lemma NoDoubleBooking(st: Snapshot, i: int, j: int, d: int)
    requires Valid(st)
    requires 0 <= i < |st.bookings| && 0 <= j < |st.bookings| && i != j
    requires st.bookings[i].hotelId == st.bookings[j].hotelId
    ensures !(Occupies(st.bookings[i], d) && Occupies(st.bookings[j], d))
  {
    var bi, bj := st.bookings[i], st.bookings[j];
    if Occupies(bi, d) && Occupies(bj, d) {
      NightLocksMember(bi.hotelId, bi.checkIn, bi.checkOut, Lock(bi.hotelId, d));
      NightLocksMember(bj.hotelId, bj.checkIn, bj.checkOut, Lock(bi.hotelId, d));
      assert false;
    }
  }

  /** A locked night belongs to exactly one booking of a valid store. */
  lemma LockHasOneOwner(st: Snapshot, l: Lock)
    requires Valid(st) && l in st.locks
    ensures exists i :: 0 <= i < |st.bookings| && st.bookings[i].hotelId == l.hotelId
                        && Occupies(st.bookings[i], l.date)
    ensures forall i, j :: 0 <= i < |st.bookings| && 0 <= j < |st.bookings|
                           && st.bookings[i].hotelId == l.hotelId && Occupies(st.bookings[i], l.date)
                           && st.bookings[j].hotelId == l.hotelId && Occupies(st.bookings[j], l.date)
                           ==> i == j
  {
    forall i, j | 0 <= i < |st.bookings| && 0 <= j < |st.bookings|
                  && st.bookings[i].hotelId == l.hotelId && Occupies(st.bookings[i], l.date)
                  && st.bookings[j].hotelId == l.hotelId && Occupies(st.bookings[j], l.date)
      ensures i == j
    {
      if i != j {
        NoDoubleBooking(st, i, j, l.date);
      }
    }
    LocksOfOwned(st.bookings, l);
    var i :| 0 <= i < |st.bookings| && l in BookingLocks(st.bookings[i]);
    NightLocksMember(st.bookings[i].hotelId, st.bookings[i].checkIn, st.bookings[i].checkOut, l);
  }

  /** Claiming the free nights of a new booking and appending it keeps the
      lock and booking collections in agreement. */
  lemma {:induction false} ClaimKeepsLedger(locks: set<Lock>, bs: seq<Booking>, b: Booking)
    requires ValidLedger(locks, bs)
    requires b.id == |bs|
    requires NightsFree(locks, b.hotelId, b.checkIn, b.checkOut)
    ensures ValidLedger(locks + BookingLocks(b), bs + [b])
  {
    var bs' := bs + [b];
    LocksOfAppend(bs, b);
    NightsFreeIsDisjoint(locks, b.hotelId, b.checkIn, b.checkOut);
    forall i, j | 0 <= i < j < |bs'|
      ensures BookingLocks(bs'[i]) !! BookingLocks(bs'[j])
    {
      if j == |bs| {
        LocksOfCovers(bs, i);
      }
    }
  }

  /** Appending a booking leaves every existing intent's link intact. */
  lemma AppendKeepsLinks(bs: seq<Booking>, b: Booking, intents: map<OrderId, PaymentIntent>)
    requires ValidIntents(bs, intents)
    ensures ValidIntents(bs + [b], intents)
  {
    forall o | o in intents
      ensures IntentLinked(bs + [b], intents[o])
    {
      assert IntentLinked(bs, intents[o]);
    }
  }

  /** One document per value: `insertMany` against a unique index refuses
      a batch that repeats a key. */
  predicate Distinct(docs: seq<Lock>)
  {
    forall k, l :: 0 <= k < l < |docs| ==> docs[k] != docs[l]
  }

  /** The set of documents of a batch. */
  function Docs(docs: seq<Lock>): set<Lock>
  {
    set x | x in docs
  }

  /** `HotelAvailability.insertMany(docs)` inside a transaction: the
      documents go in one at a time, and the first one whose (hotelId, date)
      pair is already present throws the duplicate-key error. On success
      `staged` is the lock collection with the batch added; on failure the
      caller aborts, so `staged` is discarded. */
  method InsertMany(locks: set<Lock>, docs: seq<Lock>) returns (ok: bool, staged: set<Lock>)
    ensures ok <==> Distinct(docs) && (forall k :: 0 <= k < |docs| ==> docs[k] !in locks)
    ensures ok ==> staged == locks + Docs(docs)
  {
    staged := locks;
    var i := 0;
    while i < |docs|
      invariant 0 <= i <= |docs|
      invariant staged == locks + Docs(docs[..i])
      invariant Distinct(docs[..i])
      invariant forall k :: 0 <= k < i ==> docs[k] !in locks
    {
      if docs[i] in staged {
        if docs[i] !in locks {
          var k :| k in docs[..i] && k == docs[i];
          var m :| 0 <= m < i && docs[m] == k;
          assert docs[..i][m] == docs[i];
        }
        ok := false;
        return;
      }
      assert docs[..i + 1] == docs[..i] + [docs[i]];
      staged := staged + {docs[i]};
      i := i + 1;
    }
    assert docs[..i] == docs;
    ok := true;
  }

  /** The lock documents `dates.map(date => ({ hotelId, date }))`. */
  function LockDocs(hotelId: HotelId, dates: seq<int>): (docs: seq<Lock>)
    ensures |docs| == |dates|
    ensures forall k :: 0 <= k < |dates| ==> docs[k] == Lock(hotelId, dates[k])
  {
    seq(|dates|, k requires 0 <= k < |dates| => Lock(hotelId, dates[k]))
  }

  /** For the nights of a stay as `getDatesBetween` lists them, the lock
      batch is duplicate-free, its set is the stay's night locks, and it
      goes in exactly when those nights are free. */
  lemma StayDocs(locks: set<Lock>, hotelId: HotelId, checkIn: int, checkOut: int, dates: seq<int>)
    requires forall k :: 0 <= k < |dates| ==> dates[k] == checkIn + k
    requires forall d :: d in dates <==> checkIn <= d < checkOut
    ensures Distinct(LockDocs(hotelId, dates))
    ensures Docs(LockDocs(hotelId, dates)) == NightLocks(hotelId, checkIn, checkOut)
    ensures (forall k :: 0 <= k < |dates| ==> LockDocs(hotelId, dates)[k] !in locks)
        <==> NightsFree(locks, hotelId, checkIn, checkOut)
  {
    var docs := LockDocs(hotelId, dates);
    forall l | l in NightLocks(hotelId, checkIn, checkOut)
      ensures l in Docs(docs)
    {
      NightLocksMember(hotelId, checkIn, checkOut, l);
      assert l.date in dates;
      var k :| 0 <= k < |dates| && dates[k] == l.date;
      assert docs[k] == l;
    }
    forall l | l in Docs(docs)
      ensures l in NightLocks(hotelId, checkIn, checkOut)
    {
      var k :| 0 <= k < |docs| && docs[k] == l;
      assert dates[k] in dates;
      NightLocksMember(hotelId, checkIn, checkOut, l);
    }
    if NightsFree(locks, hotelId, checkIn, checkOut) {
      forall k | 0 <= k < |dates|
        ensures docs[k] !in locks
      {
        assert dates[k] in dates;
      }
    }
    if forall k :: 0 <= k < |dates| ==> docs[k] !in locks {
      forall d | checkIn <= d < checkOut
        ensures Lock(hotelId, d) !in locks
      {
        assert d in dates;
        var k :| 0 <= k < |dates| && dates[k] == d;
        assert docs[k] == Lock(hotelId, d);
      }
    }
  }
}

/** The booking page of the frontend: which calendar days are disabled,
    the price summary shown before paying, the guest counters and the
    submit step that posts the booking. Dates are day numbers; the
    hotel's price is present once the hotel has loaded. The HTTP call is
    replaced by its answer, an input of `Submit`. */
module BookingPage {

  import opened Wrappers
  import Pricing

  /** A booked stay as the page receives it. */
  datatype BookedRange = BookedRange(checkIn: int, checkOut: int)

  /** `isDateBooked`: some booked stay covers the day, its check-in day
      included and its check-out day excluded. */
  function IsDateBooked(ranges: seq<BookedRange>, date: int): (r: bool)
    ensures r <==> exists k :: 0 <= k < |ranges| && ranges[k].checkIn <= date < ranges[k].checkOut
  {
    if ranges == [] then false
    else
      assert forall k :: 0 < k < |ranges| ==> ranges[k] == ranges[1..][k - 1];
      (ranges[0].checkIn <= date < ranges[0].checkOut) || IsDateBooked(ranges[1..], date)
  }

  /** The day a stay ends stays selectable as far as that stay goes, and
      its first day is disabled when the stay has a night. */
  lemma CheckOutDaySelectable(stay: BookedRange)
    ensures !IsDateBooked([stay], stay.checkOut)
    ensures IsDateBooked([stay], stay.checkIn) <==> stay.checkIn < stay.checkOut
  {
  }

  /** A day is disabled by a list of stays exactly when one of the two
      halves of the list disables it. */
  lemma {:induction false} BookedInConcat(a: seq<BookedRange>, b: seq<BookedRange>, date: int)
    ensures IsDateBooked(a + b, date) <==> IsDateBooked(a, date) || IsDateBooked(b, date)
  {
    if IsDateBooked(a, date) {
      var k :| 0 <= k < |a| && a[k].checkIn <= date < a[k].checkOut;
      assert (a + b)[k] == a[k];
    }
    if IsDateBooked(b, date) {
      var k :| 0 <= k < |b| && b[k].checkIn <= date < b[k].checkOut;
      assert (a + b)[|a| + k] == b[k];
    }
  }

  /** `bookingSummary`: nothing until both dates and the hotel are known,
      nothing for a stay of no night; otherwise the nights, the base
      price, the rounded 12% tax, the 500 fee and their sum. */
  function BookingSummary(checkIn: Option<int>, checkOut: Option<int>, price: Option<int>): (r: Option<Pricing.Breakdown>)
    ensures r.None? <==> checkIn.None? || checkOut.None? || price.None? || checkOut.value <= checkIn.value
    ensures r.Some? ==> r.value.nights == checkOut.value - checkIn.value
    ensures r.Some? ==> r.value.basePrice == r.value.nights * price.value
    ensures r.Some? ==> 100 * r.value.tax - 50 <= Pricing.TaxPercent * r.value.basePrice < 100 * r.value.tax + 50
    ensures r.Some? ==> r.value.serviceFee == Pricing.ServiceFee
    ensures r.Some? ==> r.value.total == r.value.basePrice + r.value.tax + r.value.serviceFee
  {
    if checkIn.None? || checkOut.None? || price.None? then None
    else
      var nights := checkOut.value - checkIn.value;
      if nights <= 0 then None
      else
        var basePrice := nights * price.value;
        var tax := Pricing.Tax(basePrice);
        Some(Pricing.Breakdown(nights, basePrice, tax, Pricing.ServiceFee, basePrice + tax + Pricing.ServiceFee))
  }

  /** The page shows the amount the server charges: whenever the summary
      exists it is the breakdown of the payment controller's pricing, and
      it is missing exactly when that pricing refuses the stay. */
  lemma SummaryMatchesServerPricing(checkIn: int, checkOut: int, price: int)
    ensures BookingSummary(Some(checkIn), Some(checkOut), Some(price)).None?
        <==> Pricing.CalculateTotalAmount(price, checkIn, checkOut).Err?
    ensures var s := BookingSummary(Some(checkIn), Some(checkOut), Some(price));
            s.Some? ==> s.value == Pricing.CalculateTotalAmount(price, checkIn, checkOut).value
  {
  }

  /** The body posted to `/bookings`. */
  datatype BookingPost = BookingPost(
    hotelId: string,
    checkIn: int,
    checkOut: int,
    adultCount: int,
    childCount: int,
    totalCost: int)

  /** The message the page shows after submitting. */
  datatype Notice = NoNotice | BookingConfirmedNotice | AlreadyBookedNotice | BookingFailedNotice

  /** The state of the booking page. */
  class BookingForm {
    /** The hotel id from the URL. */
    const hotelId: string
    /** The hotel's nightly price, once loaded. */
    var price: Option<int>
    var bookedDates: seq<BookedRange>
    var checkIn: Option<int>
    var checkOut: Option<int>
    var adultCount: int
    var childCount: int
    var submitting: bool

    /** The counters' bounds, which every step keeps. */
    predicate Valid()
      reads this
    {
      adultCount >= 1 && childCount >= 0
    }

    /** The summary the page shows for the current selection. */
    function Summary(): Option<Pricing.Breakdown>
      reads this
    {
      BookingSummary(checkIn, checkOut, price)
    }

    /** The page as it opens: no dates, one adult, no child, not
        submitting, hotel and booked stays not loaded yet. */
    constructor (hotelId: string)
      ensures this.hotelId == hotelId
      ensures price.None? && bookedDates == [] && checkIn.None? && checkOut.None?
      ensures adultCount == 1 && childCount == 0 && !submitting
      ensures Valid()
    {
      this.hotelId := hotelId;
      price := None;
      bookedDates := [];
      checkIn := None;
      checkOut := None;
      adultCount := 1;
      childCount := 0;
      submitting := false;
    }

    /** The adults' minus button: one fewer, but never below 1. */
    method DecrementAdults()
      requires Valid()
      modifies this
      ensures adultCount == if old(adultCount) > 1 then old(adultCount) - 1 else 1
      ensures childCount == old(childCount) && checkIn == old(checkIn) && checkOut == old(checkOut)
      ensures price == old(price) && bookedDates == old(bookedDates) && submitting == old(submitting)
      ensures Valid()
    {
      adultCount := if adultCount - 1 > 1 then adultCount - 1 else 1;
    }

    /** The adults' plus button. */
    method IncrementAdults()
      requires Valid()
      modifies this
      ensures adultCount == old(adultCount) + 1
      ensures childCount == old(childCount) && checkIn == old(checkIn) && checkOut == old(checkOut)
      ensures price == old(price) && bookedDates == old(bookedDates) && submitting == old(submitting)
      ensures Valid()
    {
      adultCount := adultCount + 1;
    }

    /** The children's minus button: one fewer, but never below 0. */
    method DecrementChildren()
      requires Valid()
      modifies this
      ensures childCount == if old(childCount) > 0 then old(childCount) - 1 else 0
      ensures adultCount == old(adultCount) && checkIn == old(checkIn) && checkOut == old(checkOut)
      ensures price == old(price) && bookedDates == old(bookedDates) && submitting == old(submitting)
      ensures Valid()
    {
      childCount := if childCount - 1 > 0 then childCount - 1 else 0;
    }

    /** The children's plus button. */
    method IncrementChildren()
      requires Valid()
      modifies this
      ensures childCount == old(childCount) + 1
      ensures adultCount == old(adultCount) && checkIn == old(checkIn) && checkOut == old(checkOut)
      ensures price == old(price) && bookedDates == old(bookedDates) && submitting == old(submitting)
      ensures Valid()
    {
      childCount := childCount + 1;
    }

    /** `handleSubmit`. Without a summary or either date nothing is sent
        and nothing changes. Otherwise the selection, the guest counts
        and the summary's total are posted; `answer` is the server's
        reply, `None` for success or the error status. A 400 means the
        nights are taken; any other error is a generic failure. The
        submitting flag is cleared once the answer is in. */
    method Submit(answer: Option<int>) returns (sent: Option<BookingPost>, notice: Notice)
      modifies this
      ensures sent.None? <==> old(Summary()).None? || old(checkIn).None? || old(checkOut).None?
      ensures sent.None? ==> notice == NoNotice && submitting == old(submitting)
      ensures sent.Some? ==> sent.value == BookingPost(hotelId, old(checkIn).value, old(checkOut).value,
                                                       old(adultCount), old(childCount), old(Summary()).value.total)
      ensures sent.Some? ==> !submitting
      ensures sent.Some? ==> (notice == BookingConfirmedNotice <==> answer.None?)
      ensures sent.Some? ==> (notice == AlreadyBookedNotice <==> answer == Some(400))
      ensures sent.Some? && answer.Some? && answer.value != 400 ==> notice == BookingFailedNotice
      ensures price == old(price) && bookedDates == old(bookedDates) && checkIn == old(checkIn)
      ensures checkOut == old(checkOut) && adultCount == old(adultCount) && childCount == old(childCount)
    {
      var summary := Summary();
      if summary.None? || checkIn.None? || checkOut.None? {
        return None, NoNotice;
      }
      submitting := true;
      sent := Some(BookingPost(hotelId, checkIn.value, checkOut.value, adultCount, childCount, summary.value.total));
      if answer.None? {
        notice := BookingConfirmedNotice;
      } else if answer.value == 400 {
        notice := AlreadyBookedNotice;
      } else {
        notice := BookingFailedNotice;
      }
      submitting := false;
    }
  }

  /** A posted booking always spans at least one night: the guard on the
      summary rules out an empty or reversed stay before the request is
      sent, and the total posted is what the server would charge. */
  lemma PostedStayHasNights(checkIn: Option<int>, checkOut: Option<int>, price: Option<int>)
    requires BookingSummary(checkIn, checkOut, price).Some?
    ensures checkIn.Some? && checkOut.Some? && price.Some? && checkIn.value < checkOut.value
    ensures BookingSummary(checkIn, checkOut, price).value.total
         == Pricing.CalculateTotalAmount(price.value, checkIn.value, checkOut.value).value.total
  {
  }
}

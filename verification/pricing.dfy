/** `calculateTotalAmount`: the price of a stay, computed by the backend
    when a payment order is created. The frontend's `bookingSummary`
    repeats the same formula (see BookingPage.BookingSummary). */
module Pricing {

  import opened Wrappers

  /** The flat service fee added to every stay. */
  const ServiceFee: int := 500

  /** Tax rate, in percent of the base price. */
  const TaxPercent: int := 12

  datatype Breakdown = Breakdown(
    nights: int,
    basePrice: int,
    tax: int,
    serviceFee: int,
    total: int)

  datatype PricingError = InvalidDateRange

  /** `Math.round(basePrice * 0.12)` computed exactly: the integer nearest
      to 12% of the base price, a half rounded up. */
  function Tax(basePrice: int): (tax: int)
    ensures 100 * tax - 50 <= TaxPercent * basePrice < 100 * tax + 50
  {
    (TaxPercent * basePrice + 50) / 100
  }

  /** The nights between two day numbers, the price of each night, and
      the total the guest pays. A stay of no night or fewer throws. */
  function CalculateTotalAmount(pricePerNight: int, checkIn: int, checkOut: int): (r: Result<Breakdown, PricingError>)
    ensures r.Err? <==> checkOut <= checkIn
    ensures r.Ok? ==> r.value.nights == checkOut - checkIn > 0
    ensures r.Ok? ==> r.value.basePrice == r.value.nights * pricePerNight
    ensures r.Ok? ==> 100 * r.value.tax - 50 <= TaxPercent * r.value.basePrice < 100 * r.value.tax + 50
    ensures r.Ok? ==> r.value.serviceFee == ServiceFee
    ensures r.Ok? ==> r.value.total == r.value.basePrice + r.value.tax + ServiceFee
  {
    var nights := checkOut - checkIn;
    if nights <= 0 then
      Err(InvalidDateRange)
    else
      var basePrice := nights * pricePerNight;
      var tax := Tax(basePrice);
      Ok(Breakdown(nights, basePrice, tax, ServiceFee, basePrice + tax + ServiceFee))
  }

  /** The total is 112% of the base price plus the fee, to the nearest
      unit: it never strays from the exact value by more than a half. */
  lemma TotalIsNearest(pricePerNight: int, checkIn: int, checkOut: int)
    requires checkIn < checkOut
    ensures var b := CalculateTotalAmount(pricePerNight, checkIn, checkOut).value;
            100 * b.total - 50 <= 112 * b.basePrice + 100 * ServiceFee < 100 * b.total + 50
  {
  }

  /** 1000 per night for two nights: 2000 + 240 tax + 500 fee = 2740. */
  lemma TwoNightsAtThousand(checkIn: int)
    ensures CalculateTotalAmount(1000, checkIn, checkIn + 2) == Ok(Breakdown(2, 2000, 240, 500, 2740))
  {
  }

  /** A longer stay at a non-negative price never costs less. */
  lemma {:induction false} LongerStayCostsMore(pricePerNight: int, checkIn: int, checkOut: int, later: int)
    requires pricePerNight >= 0
    requires checkIn < checkOut <= later
    ensures CalculateTotalAmount(pricePerNight, checkIn, checkOut).value.total
         <= CalculateTotalAmount(pricePerNight, checkIn, later).value.total
  {
    var b1 := (checkOut - checkIn) * pricePerNight;
    var b2 := (later - checkIn) * pricePerNight;
    assert b2 - b1 == (later - checkOut) * pricePerNight;
    assert b1 <= b2;
    assert Tax(b1) <= Tax(b2);
  }
}

/** Night enumeration: `getDatesBetween`, which turns a stay
    [checkIn, checkOut) into the list of nights to lock. Dates are whole
    day numbers; the checkout day itself is not a night of the stay. */
module Dates {

  /** The nights of the stay [start, end), in ascending order. The loop
      keeps `current` one day ahead of the last pushed night; a range with
      `end <= start` gives no nights at all. */
  method GetDatesBetween(start: int, end: int) returns (dates: seq<int>)
    ensures |dates| == if start < end then end - start else 0
    ensures forall k :: 0 <= k < |dates| ==> dates[k] == start + k
    ensures forall d :: d in dates <==> start <= d < end
    ensures forall k, l :: 0 <= k < l < |dates| ==> dates[k] < dates[l]
  {
    dates := [];
    var current := start;
    while current < end
      invariant start <= current
      invariant current <= end || current == start
      invariant |dates| == current - start
      invariant forall k :: 0 <= k < |dates| ==> dates[k] == start + k
    {
      dates := dates + [current];
      current := current + 1;
    }
    forall d | start <= d < end
      ensures d in dates
    {
      assert dates[d - start] == d;
    }
  }
}

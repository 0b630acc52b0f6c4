/**
 * The standalone validators: route, hazmat and time-window compatibility of
 * a proposed load, and the capacity check.
 */
module Validators {
  import opened Models
  import opened Constants
  import opened Compatibility

  /** Every order is picked up on or before its own delivery. */
  ghost predicate WindowsValid(orders: seq<Order>) {
    forall k :: 0 <= k < |orders| ==> orders[k].pickupDate <= orders[k].deliveryDate
  }

  /** No delivery lies more than the allowed gap after any pickup. */
  ghost predicate WithinSpan(orders: seq<Order>) {
    forall i, j :: 0 <= i < |orders| && 0 <= j < |orders| ==>
      orders[j].deliveryDate - orders[i].pickupDate <= MAX_TIME_WINDOW_GAP_DAYS
  }

  /** The earliest pickup date. */
  function MinPickup(orders: seq<Order>): (r: Day)
    requires |orders| > 0
    ensures forall k :: 0 <= k < |orders| ==> r <= orders[k].pickupDate
    ensures exists k :: 0 <= k < |orders| && r == orders[k].pickupDate
  {
    if |orders| == 1 then orders[0].pickupDate
    else
      var m := MinPickup(orders[1..]);
      assert forall k :: 1 <= k < |orders| ==> orders[k] == orders[1..][k - 1];
      if orders[0].pickupDate <= m then orders[0].pickupDate else m
  }

  /** The latest delivery date. */
  function MaxDelivery(orders: seq<Order>): (r: Day)
    requires |orders| > 0
    ensures forall k :: 0 <= k < |orders| ==> orders[k].deliveryDate <= r
    ensures exists k :: 0 <= k < |orders| && r == orders[k].deliveryDate
  {
    if |orders| == 1 then orders[0].deliveryDate
    else
      var m := MaxDelivery(orders[1..]);
      assert forall k :: 1 <= k < |orders| ==> orders[k] == orders[1..][k - 1];
      if orders[0].deliveryDate >= m then orders[0].deliveryDate else m
  }

  /** The early-return scan for an order delivered before its pickup. */
  function AllWindowsValid(orders: seq<Order>): (r: bool)
    ensures r <==> WindowsValid(orders)
  {
    if |orders| == 0 then true
    else if orders[0].deliveryDate < orders[0].pickupDate then false
    else
      assert forall k :: 1 <= k < |orders| ==> orders[k] == orders[1..][k - 1];
      AllWindowsValid(orders[1..])
  }

  /** Comparing the extreme dates decides the pairwise span rule. */
  lemma SpanCheckDecidesWithinSpan(orders: seq<Order>)
    requires |orders| > 0
    ensures MaxDelivery(orders) - MinPickup(orders) > MAX_TIME_WINDOW_GAP_DAYS <==> !WithinSpan(orders)
  {
    var lo, hi := MinPickup(orders), MaxDelivery(orders);
    if !WithinSpan(orders) {
      var i, j :| 0 <= i < |orders| && 0 <= j < |orders| &&
        orders[j].deliveryDate - orders[i].pickupDate > MAX_TIME_WINDOW_GAP_DAYS;
      assert lo <= orders[i].pickupDate && orders[j].deliveryDate <= hi;
    } else {
      var i :| 0 <= i < |orders| && lo == orders[i].pickupDate;
      var j :| 0 <= j < |orders| && hi == orders[j].deliveryDate;
      assert orders[j].deliveryDate - orders[i].pickupDate <= MAX_TIME_WINDOW_GAP_DAYS;
    }
  }

  /**
   * Route, then hazmat, then each order's own window, then the combined
   * span; the first rule that fails names the reason.
   */
  function ValidateOrdersCompatibility(orders: seq<Order>): (r: (bool, string))
    ensures |orders| == 0 ==> r == (true, "")
    ensures !SameRoute(orders) ==> r == (false, ROUTE_CONFLICT)
    ensures SameRoute(orders) && !UniformHazmat(orders) ==> r == (false, HAZMAT_CONFLICT)
    ensures SameRoute(orders) && UniformHazmat(orders) && !WindowsValid(orders) ==>
      r == (false, INVALID_TIME_WINDOW)
    ensures SameRoute(orders) && UniformHazmat(orders) && WindowsValid(orders) && !WithinSpan(orders) ==>
      r == (false, TIME_WINDOW_TOO_WIDE)
    ensures r.0 <==> SameRoute(orders) && UniformHazmat(orders) && WindowsValid(orders) && WithinSpan(orders)
    ensures r.0 ==> r.1 == ""
  {
    if |orders| == 0 then (true, "")
    else
      RouteScanDecidesSameRoute(orders);
      HazmatStatusesMixed(orders);
      SpanCheckDecidesWithinSpan(orders);
      if !AllOnRoute(orders[1..], orders[0].origin, orders[0].destination) then (false, ROUTE_CONFLICT)
      else if |HazmatStatuses(orders)| > 1 then (false, HAZMAT_CONFLICT)
      else
        var minPickup := MinPickup(orders);
        var maxDelivery := MaxDelivery(orders);
        if !AllWindowsValid(orders) then (false, INVALID_TIME_WINDOW)
        else if maxDelivery - minPickup > MAX_TIME_WINDOW_GAP_DAYS then (false, TIME_WINDOW_TOO_WIDE)
        else (true, "")
  }

  /** Total weight and total volume both within the truck's maxima. */
  function ValidateCapacity(truck: Truck, orders: seq<Order>): (r: bool)
    ensures ValidTruck(truck) && |orders| == 0 ==> r
  {
    TotalWeight(orders) <= truck.maxWeightLbs && TotalVolume(orders) <= truck.maxVolumeCuft
  }

  /** A load that fits as a whole fits order by order. */
  lemma {:induction false} CapacityImpliesEachFits(truck: Truck, orders: seq<Order>)
    requires AllValid(orders)
    requires ValidateCapacity(truck, orders)
    ensures forall k :: 0 <= k < |orders| ==>
      orders[k].weightLbs <= truck.maxWeightLbs && orders[k].volumeCuft <= truck.maxVolumeCuft
  {
    if |orders| > 0 {
      var init := orders[..|orders| - 1];
      TotalsNonNegative(init);
      assert ValidateCapacity(truck, init);
      CapacityImpliesEachFits(truck, init);
      forall k | 0 <= k < |orders| - 1
        ensures orders[k].weightLbs <= truck.maxWeightLbs && orders[k].volumeCuft <= truck.maxVolumeCuft
      {
        assert orders[k] == init[k];
      }
    }
  }

  lemma {:induction false} TotalsNonNegative(orders: seq<Order>)
    requires AllValid(orders)
    ensures TotalPayout(orders) >= 0 && TotalWeight(orders) >= 0 && TotalVolume(orders) >= 0
  {
    if |orders| > 0 {
      TotalsNonNegative(orders[..|orders| - 1]);
    }
  }
}

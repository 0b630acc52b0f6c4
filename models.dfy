/** The records the optimizer works on: trucks, freight orders and the result. */
module Models {
  import opened Subsequences

  /** A calendar date, as a number of days from a fixed epoch. */
  type Day = int

  datatype Truck = Truck(id: string, maxWeightLbs: int, maxVolumeCuft: int)

  datatype Order = Order(
    id: string,
    payoutCents: int,
    weightLbs: int,
    volumeCuft: int,
    origin: string,
    destination: string,
    pickupDate: Day,
    deliveryDate: Day,
    isHazmat: bool)

  /** The optimizer's answer; utilization percentages are not modelled. */
  datatype OptimizationResult = OptimizationResult(
    truckId: string,
    selectedOrderIds: seq<string>,
    totalPayoutCents: int,
    totalWeightLbs: int,
    totalVolumeCuft: int)

  /** Field constraints the request schema enforces on a truck. */
  predicate ValidTruck(t: Truck) {
    t.maxWeightLbs > 0 && t.maxVolumeCuft > 0
  }

  /** Field constraints the request schema enforces on an order. */
  predicate ValidOrder(o: Order) {
    o.payoutCents >= 0 && o.weightLbs > 0 && o.volumeCuft > 0
  }

  predicate AllValid(orders: seq<Order>) {
    forall k :: 0 <= k < |orders| ==> ValidOrder(orders[k])
  }

  /** Sums in the order a running accumulator meets the orders. */
  function TotalPayout(orders: seq<Order>): int {
    if |orders| == 0 then 0 else TotalPayout(orders[..|orders| - 1]) + orders[|orders| - 1].payoutCents
  }

  function TotalWeight(orders: seq<Order>): int {
    if |orders| == 0 then 0 else TotalWeight(orders[..|orders| - 1]) + orders[|orders| - 1].weightLbs
  }

  function TotalVolume(orders: seq<Order>): int {
    if |orders| == 0 then 0 else TotalVolume(orders[..|orders| - 1]) + orders[|orders| - 1].volumeCuft
  }

  lemma TotalsAppend(s: seq<Order>, o: Order)
    ensures TotalPayout(s + [o]) == TotalPayout(s) + o.payoutCents
    ensures TotalWeight(s + [o]) == TotalWeight(s) + o.weightLbs
    ensures TotalVolume(s + [o]) == TotalVolume(s) + o.volumeCuft
  {
    assert (s + [o])[..|s|] == s;
  }

  /** The identifiers of `orders`, in the same order. */
  function Ids(orders: seq<Order>): (r: seq<string>)
    ensures |r| == |orders|
    ensures forall k :: 0 <= k < |orders| ==> r[k] == orders[k].id
  {
    seq(|orders|, k requires 0 <= k < |orders| => orders[k].id)
  }

  /** Dropping orders drops their identifiers and keeps the rest in order. */
  lemma IdsSubseq(a: seq<Order>, b: seq<Order>)
    requires IsSubseq(a, b)
    ensures IsSubseq(Ids(a), Ids(b))
  {
    var idx :| SubseqVia(a, b, idx);
    assert SubseqVia(Ids(a), Ids(b), idx);
  }
}

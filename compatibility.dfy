/**
 * The route and hazmat rules shared by both compatibility validators: the
 * scans they run and the properties those scans decide.
 */
module Compatibility {
  import opened Models

  /** Every order has the origin and destination of the first one. */
  ghost predicate SameRoute(orders: seq<Order>) {
    forall k :: 0 <= k < |orders| ==>
      orders[k].origin == orders[0].origin && orders[k].destination == orders[0].destination
  }

  /** All orders agree on the hazmat flag. */
  ghost predicate UniformHazmat(orders: seq<Order>) {
    forall i, j :: 0 <= i < |orders| && 0 <= j < |orders| ==> orders[i].isHazmat == orders[j].isHazmat
  }

  /** The early-return scan over the orders after the first. */
  function AllOnRoute(rest: seq<Order>, origin: string, destination: string): (r: bool)
    ensures r <==> forall k :: 0 <= k < |rest| ==>
      rest[k].origin == origin && rest[k].destination == destination
  {
    if |rest| == 0 then true
    else if rest[0].origin != origin || rest[0].destination != destination then false
    else AllOnRoute(rest[1..], origin, destination)
  }

  lemma RouteScanDecidesSameRoute(orders: seq<Order>)
    requires |orders| > 0
    ensures AllOnRoute(orders[1..], orders[0].origin, orders[0].destination) <==> SameRoute(orders)
  {
    var rest := orders[1..];
    if AllOnRoute(rest, orders[0].origin, orders[0].destination) {
      forall k | 1 <= k < |orders|
        ensures orders[k].origin == orders[0].origin && orders[k].destination == orders[0].destination
      {
        assert orders[k] == rest[k - 1];
      }
    }
  }

  /** The set of distinct hazmat flags among the orders. */
  function HazmatStatuses(orders: seq<Order>): set<bool> {
    set o | o in orders :: o.isHazmat
  }

  /** More than one distinct flag is exactly a hazmat mix. */
  lemma HazmatStatusesMixed(orders: seq<Order>)
    ensures |HazmatStatuses(orders)| > 1 <==> !UniformHazmat(orders)
  {
    var s := HazmatStatuses(orders);
    if !UniformHazmat(orders) {
      var i, j :| 0 <= i < |orders| && 0 <= j < |orders| && orders[i].isHazmat != orders[j].isHazmat;
      assert orders[i].isHazmat in s && orders[j].isHazmat in s;
      assert s == {false, true};
    } else if |orders| == 0 {
      assert s == {};
    } else {
      forall b | b in s ensures b == orders[0].isHazmat {
        var o :| o in orders && o.isHazmat == b;
        var k :| 0 <= k < |orders| && orders[k] == o;
      }
      assert orders[0] in orders;
      assert s == {orders[0].isHazmat};
    }
  }
}

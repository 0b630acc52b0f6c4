/**
 * The load optimizer: pre-filter the orders, enumerate every non-empty
 * subset as a bitmask in ascending order, prune on capacity, discard
 * incompatible subsets, and keep the first subset with the highest payout.
 */
module Optimizer {
  import opened Models
  import opened Constants
  import opened Compatibility
  import opened Subsequences
  import Validators

  /**
   * The optimizer's own compatibility check: route, then hazmat. It does not
   * look at dates.
   */
  function ValidateOrdersCompatibility(orders: seq<Order>): (r: (bool, string))
    ensures |orders| == 0 ==> r == (true, "")
    ensures r.0 <==> SameRoute(orders) && UniformHazmat(orders)
    ensures r.0 ==> r.1 == ""
    ensures !SameRoute(orders) ==> r == (false, ROUTE_CONFLICT)
    ensures SameRoute(orders) && !UniformHazmat(orders) ==> r == (false, HAZMAT_CONFLICT)
  {
    if |orders| == 0 then (true, "")
    else
      RouteScanDecidesSameRoute(orders);
      HazmatStatusesMixed(orders);
      if !AllOnRoute(orders[1..], orders[0].origin, orders[0].destination) then (false, ROUTE_CONFLICT)
      else if |HazmatStatuses(orders)| > 1 then (false, HAZMAT_CONFLICT)
      else (true, "")
  }

  /** The order fits the empty truck on its own. */
  predicate FitsAlone(truck: Truck, o: Order) {
    o.weightLbs <= truck.maxWeightLbs && o.volumeCuft <= truck.maxVolumeCuft
  }

  /** The orders that fit the truck on their own, in input order. */
  function PreFilter(truck: Truck, orders: seq<Order>): (r: seq<Order>)
    ensures forall o :: o in r <==> o in orders && FitsAlone(truck, o)
    ensures |r| <= |orders|
    ensures (forall k :: 0 <= k < |orders| ==> !FitsAlone(truck, orders[k])) ==> r == []
  {
    if |orders| == 0 then []
    else
      assert forall o :: o in orders <==> o == orders[0] || o in orders[1..];
      (if FitsAlone(truck, orders[0]) then [orders[0]] else []) + PreFilter(truck, orders[1..])
  }

  /**
   * The pre-filter keeps every occurrence of a fitting order and no occurrence
   * of any other: repeated orders are independent items.
   */
  lemma {:induction false} PreFilterCounts(truck: Truck, orders: seq<Order>)
    ensures forall o ::
      multiset(PreFilter(truck, orders))[o] == if FitsAlone(truck, o) then multiset(orders)[o] else 0
  {
    if |orders| > 0 {
      PreFilterCounts(truck, orders[1..]);
      assert orders == [orders[0]] + orders[1..];
    }
  }

  /** When every order fits on its own, the pre-filter keeps the list as it is. */
  lemma {:induction false} PreFilterKeepsAll(truck: Truck, orders: seq<Order>)
    requires forall k :: 0 <= k < |orders| ==> FitsAlone(truck, orders[k])
    ensures PreFilter(truck, orders) == orders
  {
    if |orders| > 0 {
      var rest := orders[1..];
      assert forall k :: 0 <= k < |rest| ==> rest[k] == orders[k + 1];
      PreFilterKeepsAll(truck, rest);
      assert [orders[0]] + rest == orders;
    }
  }

  lemma {:induction false} PreFilterSubseq(truck: Truck, orders: seq<Order>)
    ensures IsSubseq(PreFilter(truck, orders), orders)
  {
    if |orders| == 0 {
      assert SubseqVia([], orders, []);
    } else {
      var rest := PreFilter(truck, orders[1..]);
      PreFilterSubseq(truck, orders[1..]);
      var idx :| SubseqVia(rest, orders[1..], idx);
      SubseqPrepend(rest, orders[1..], orders[0], idx);
      assert orders == [orders[0]] + orders[1..];
      if !FitsAlone(truck, orders[0]) {
        assert PreFilter(truck, orders) == rest;
      }
    }
  }

  function Pow2(k: nat): (r: nat)
    ensures r >= 1
  {
    if k == 0 then 1 else 2 * Pow2(k - 1)
  }

  /** Bit `i` of `mask` is set (`mask & (1 << i)`): the order at index `i` is in the subset. */
  predicate Bit(mask: nat, i: nat) {
    if i == 0 then mask % 2 == 1 else Bit(mask / 2, i - 1)
  }

  lemma {:induction false} BitOfZero(i: nat)
    ensures !Bit(0, i)
  {
    if i > 0 {
      BitOfZero(i - 1);
    }
  }

  /** The members of subset `mask` of `s`, in index order. */
  function Select(s: seq<Order>, mask: nat): (r: seq<Order>)
    ensures |r| <= |s|
    ensures forall o :: o in r ==> o in s
  {
    if |s| == 0 then []
    else
      var init := Select(s[..|s| - 1], mask);
      assert forall o :: o in s[..|s| - 1] ==> o in s;
      init + (if Bit(mask, |s| - 1) then [s[|s| - 1]] else [])
  }

  lemma SelectStep(s: seq<Order>, i: nat, mask: nat)
    requires i < |s|
    ensures Select(s[..i + 1], mask) == Select(s[..i], mask) + (if Bit(mask, i) then [s[i]] else [])
  {
    assert s[..i + 1][..i] == s[..i];
  }

  lemma {:induction false} SelectZero(s: seq<Order>)
    ensures Select(s, 0) == []
  {
    if |s| > 0 {
      SelectZero(s[..|s| - 1]);
      BitOfZero(|s| - 1);
    }
  }

  lemma {:induction false} SelectSubseq(s: seq<Order>, mask: nat)
    ensures IsSubseq(Select(s, mask), s)
  {
    if |s| == 0 {
      assert SubseqVia([], s, []);
    } else {
      var n := |s| - 1;
      var init := Select(s[..n], mask);
      SelectSubseq(s[..n], mask);
      var idx :| SubseqVia(init, s[..n], idx);
      SubseqAppend(init, s[..n], s[n], idx);
      assert s == s[..n] + [s[n]];
      if !Bit(mask, n) {
        assert Select(s, mask) == init;
      }
    }
  }

  /** Adding later members never lowers the subset's weight or volume. */
  lemma {:induction false} SelectPrefixTotals(s: seq<Order>, j: nat, mask: nat)
    requires AllValid(s)
    requires j <= |s|
    ensures TotalWeight(Select(s[..j], mask)) <= TotalWeight(Select(s, mask))
    ensures TotalVolume(Select(s[..j], mask)) <= TotalVolume(Select(s, mask))
    decreases |s| - j
  {
    if j == |s| {
      assert s[..j] == s;
    } else {
      SelectPrefixTotals(s, j + 1, mask);
      SelectStep(s, j, mask);
      var before := Select(s[..j], mask);
      if Bit(mask, j) {
        TotalsAppend(before, s[j]);
        assert ValidOrder(s[j]);
        assert TotalWeight(Select(s[..j + 1], mask)) == TotalWeight(before) + s[j].weightLbs;
      } else {
        assert Select(s[..j + 1], mask) == before + [];
        assert before + [] == before;
      }
    }
  }

  function Payout(s: seq<Order>, mask: nat): int {
    TotalPayout(Select(s, mask))
  }

  /** Subset `mask` fits the truck and passes the optimizer's compatibility check. */
  ghost predicate Admissible(truck: Truck, s: seq<Order>, mask: nat) {
    Validators.ValidateCapacity(truck, Select(s, mask)) && ValidateOrdersCompatibility(Select(s, mask)).0
  }

  /**
   * `best` is the mask the enumeration keeps: 0 (nothing) or an admissible
   * subset with positive payout; no admissible subset pays more; every
   * admissible subset with a lower mask pays strictly less.
   */
  ghost predicate IsBestMask(truck: Truck, s: seq<Order>, best: nat) {
    && best < Pow2(|s|)
    && (best != 0 ==> Admissible(truck, s, best) && Payout(s, best) > 0)
    && (forall m :: 1 <= m < Pow2(|s|) && Admissible(truck, s, m) ==> Payout(s, m) <= Payout(s, best))
    && (forall m :: 1 <= m < best && Admissible(truck, s, m) ==> Payout(s, m) < Payout(s, best))
  }

  /**
   * One mask of the enumeration: add members in index order, stopping at the
   * first one that would overflow weight or volume.
   */
  method TryMask(truck: Truck, feasible: seq<Order>, mask: nat)
    returns (prune: bool, current: seq<Order>, weight: int, volume: int, revenue: int)
    requires ValidTruck(truck)
    requires AllValid(feasible)
    ensures prune <==> !Validators.ValidateCapacity(truck, Select(feasible, mask))
    ensures !prune ==> current == Select(feasible, mask)
    ensures !prune ==> weight == TotalWeight(current) && volume == TotalVolume(current)
    ensures !prune ==> revenue == TotalPayout(current)
  {
    current := [];
    weight, volume, revenue := 0, 0, 0;
    prune := false;
    var n := |feasible|;
    var i := 0;
    while i < n
      invariant 0 <= i <= n
      invariant current == Select(feasible[..i], mask)
      invariant weight == TotalWeight(current) && volume == TotalVolume(current)
      invariant revenue == TotalPayout(current)
      invariant weight <= truck.maxWeightLbs && volume <= truck.maxVolumeCuft
    {
      SelectStep(feasible, i, mask);
      if Bit(mask, i) {
        var order := feasible[i];
        TotalsAppend(current, order);
        if weight + order.weightLbs > truck.maxWeightLbs || volume + order.volumeCuft > truck.maxVolumeCuft {
          prune := true;
          SelectPrefixTotals(feasible, i + 1, mask);
          break;
        }
        current := current + [order];
        weight := weight + order.weightLbs;
        volume := volume + order.volumeCuft;
        revenue := revenue + order.payoutCents;
      }
      i := i + 1;
    }
    if !prune {
      assert feasible[..n] == feasible;
    }
  }

  /**
   * The enumeration over masks 1 .. 2^n - 1 with strict-improvement best
   * tracking; returns the best mask.
   */
  method SearchBestMask(truck: Truck, feasible: seq<Order>) returns (bestMask: nat)
    requires ValidTruck(truck)
    requires AllValid(feasible)
    ensures IsBestMask(truck, feasible, bestMask)
  {
    var n := |feasible|;
    bestMask := 0;
    var bestRevenue, bestWeight, bestVolume := 0, 0, 0;
    SelectZero(feasible);
    var totalMasks := Pow2(n);
    var mask := 1;
    while mask < totalMasks
      invariant 1 <= mask <= totalMasks
      invariant bestMask < mask
      invariant bestRevenue == Payout(feasible, bestMask)
      invariant bestWeight == TotalWeight(Select(feasible, bestMask))
      invariant bestVolume == TotalVolume(Select(feasible, bestMask))
      invariant bestMask != 0 ==> Admissible(truck, feasible, bestMask) && bestRevenue > 0
      invariant forall m :: 1 <= m < mask && Admissible(truck, feasible, m) ==> Payout(feasible, m) <= bestRevenue
      invariant forall m :: 1 <= m < bestMask && Admissible(truck, feasible, m) ==> Payout(feasible, m) < bestRevenue
    {
      var prune, current, weight, volume, revenue := TryMask(truck, feasible, mask);
      ghost var admissible := Admissible(truck, feasible, mask);
      ghost var previous := bestRevenue;
      if !prune {
        var verdict := ValidateOrdersCompatibility(current);
        assert admissible == verdict.0 && revenue == Payout(feasible, mask);
        if verdict.0 && revenue > bestRevenue {
          bestMask := mask;
          bestRevenue := revenue;
          bestWeight := weight;
          bestVolume := volume;
        }
      } else {
        assert !admissible;
      }
      assert previous <= bestRevenue;
      assert admissible ==> Payout(feasible, mask) <= bestRevenue;
      forall m | 1 <= m < mask + 1 && Admissible(truck, feasible, m)
        ensures Payout(feasible, m) <= bestRevenue
      {
        if m == mask {
          assert admissible;
        }
      }
      mask := mask + 1;
    }
  }

  /** The empty result: no orders, all totals zero. */
  function CreateEmptyResult(truckId: string): (r: OptimizationResult)
    ensures r.truckId == truckId && r.selectedOrderIds == []
    ensures r.totalPayoutCents == 0 && r.totalWeightLbs == 0 && r.totalVolumeCuft == 0
  {
    OptimizationResult(truckId, [], 0, 0, 0)
  }

  /** The result record for the chosen orders. */
  function CreateResult(truck: Truck, orders: seq<Order>): (r: OptimizationResult)
    ensures r.truckId == truck.id
    ensures |r.selectedOrderIds| == |orders|
    ensures forall k :: 0 <= k < |orders| ==> r.selectedOrderIds[k] == orders[k].id
    ensures r.totalPayoutCents == TotalPayout(orders)
    ensures r.totalWeightLbs == TotalWeight(orders) && r.totalVolumeCuft == TotalVolume(orders)
    ensures |orders| == 0 ==> r == CreateEmptyResult(truck.id)
  {
    if |orders| == 0 then CreateEmptyResult(truck.id)
    else OptimizationResult(truck.id, Ids(orders), TotalPayout(orders), TotalWeight(orders), TotalVolume(orders))
  }

  /** What the chosen subset satisfies, whichever best mask was chosen. */
  lemma BestSelectionProperties(truck: Truck, orders: seq<Order>, best: nat)
    requires ValidTruck(truck)
    requires IsBestMask(truck, PreFilter(truck, orders), best)
    ensures var sel := Select(PreFilter(truck, orders), best);
      && Validators.ValidateCapacity(truck, sel)
      && ValidateOrdersCompatibility(sel).0
      && (forall o :: o in sel ==> o in orders && FitsAlone(truck, o))
      && IsSubseq(Ids(sel), Ids(orders))
  {
    var feasible := PreFilter(truck, orders);
    var sel := Select(feasible, best);
    if best == 0 {
      SelectZero(feasible);
    }
    SelectSubseq(feasible, best);
    PreFilterSubseq(truck, orders);
    SubseqTransitive(sel, feasible, orders);
    IdsSubseq(sel, orders);
  }

  /**
   * The result built from the best mask: within capacity, its identifiers a
   * subsequence of the input's, and empty when no order fits on its own.
   */
  lemma BestResultProperties(truck: Truck, orders: seq<Order>, best: nat)
    requires ValidTruck(truck)
    requires IsBestMask(truck, PreFilter(truck, orders), best)
    ensures var r := CreateResult(truck, Select(PreFilter(truck, orders), best));
      && r.truckId == truck.id
      && r.totalWeightLbs <= truck.maxWeightLbs && r.totalVolumeCuft <= truck.maxVolumeCuft
      && IsSubseq(r.selectedOrderIds, Ids(orders))
      && ((forall k :: 0 <= k < |orders| ==> !FitsAlone(truck, orders[k])) ==> r == CreateEmptyResult(truck.id))
  {
    var feasible := PreFilter(truck, orders);
    var sel := Select(feasible, best);
    var r := CreateResult(truck, sel);
    BestSelectionProperties(truck, orders, best);
    assert r.selectedOrderIds == Ids(sel);
    if forall k :: 0 <= k < |orders| ==> !FitsAlone(truck, orders[k]) {
      assert sel == [];
    }
  }

  /** Two masks that both meet the best-mask description are the same mask. */
  lemma BestMaskUnique(truck: Truck, s: seq<Order>, b1: nat, b2: nat)
    requires IsBestMask(truck, s, b1) && IsBestMask(truck, s, b2)
    ensures b1 == b2
  {
    SelectZero(s);
    if b1 != 0 && b2 != 0 {
      assert Payout(s, b1) == Payout(s, b2);
    }
  }

  /**
   * A single order that fits is chosen exactly when it pays something: a
   * zero-payout order never replaces the empty baseline.
   */
  lemma SingleFeasibleOrder(truck: Truck, o: Order, best: nat)
    requires ValidTruck(truck) && ValidOrder(o) && FitsAlone(truck, o)
    requires IsBestMask(truck, PreFilter(truck, [o]), best)
    ensures best == (if o.payoutCents > 0 then 1 else 0)
    ensures CreateResult(truck, Select(PreFilter(truck, [o]), best)).selectedOrderIds
      == (if o.payoutCents > 0 then [o.id] else [])
  {
    var s := [o];
    assert PreFilter(truck, s) == s;
    assert Pow2(|s|) == 2;
    SelectZero(s);
    SingleOrderMask(truck, o);
    if o.payoutCents > 0 && best == 0 {
      assert false;
    }
    if o.payoutCents == 0 && best == 1 {
      assert false;
    }
  }

  /** Mask 1 over a one-order list selects that order, which passes both checks when it fits. */
  lemma SingleOrderMask(truck: Truck, o: Order)
    requires FitsAlone(truck, o)
    ensures Select([o], 1) == [o]
    ensures Payout([o], 1) == o.payoutCents
    ensures Admissible(truck, [o], 1)
  {
    var s := [o];
    assert Select(s, 1) == [o] by {
      SelectStep(s, 0, 1);
      assert s[..1] == s && s[..0] == [];
    }
    TotalsAppend([], o);
    assert [] + [o] == [o];
  }

  /** With no order left after the pre-filter, mask 0 is the best mask and selects nothing. */
  lemma NothingFeasible(truck: Truck, orders: seq<Order>)
    requires |PreFilter(truck, orders)| == 0
    ensures IsBestMask(truck, PreFilter(truck, orders), 0)
    ensures CreateResult(truck, Select(PreFilter(truck, orders), 0)) == CreateEmptyResult(truck.id)
  {
    var feasible := PreFilter(truck, orders);
    assert Pow2(|feasible|) == 1;
    SelectZero(feasible);
  }

  /** The pre-filter keeps only orders of the input, so valid orders stay valid. */
  lemma PreFilterValid(truck: Truck, orders: seq<Order>)
    requires AllValid(orders)
    ensures AllValid(PreFilter(truck, orders))
  {
    var feasible := PreFilter(truck, orders);
    forall k | 0 <= k < |feasible| ensures ValidOrder(feasible[k]) {
      assert feasible[k] in orders;
    }
  }

  /**
   * The optimizer entry point. Orders that fit on their own are kept in input
   * order; the best mask over them is found and its members returned.
   */
  method OptimizeBruteforce(truck: Truck, orders: seq<Order>) returns (result: OptimizationResult)
    requires ValidTruck(truck)
    requires AllValid(orders)
    requires |orders| <= MAX_ORDERS
    ensures exists best ::
      && IsBestMask(truck, PreFilter(truck, orders), best)
      && result == CreateResult(truck, Select(PreFilter(truck, orders), best))
    ensures result.truckId == truck.id
    ensures result.totalWeightLbs <= truck.maxWeightLbs && result.totalVolumeCuft <= truck.maxVolumeCuft
    ensures IsSubseq(result.selectedOrderIds, Ids(orders))
    ensures (forall k :: 0 <= k < |orders| ==> !FitsAlone(truck, orders[k])) ==> result == CreateEmptyResult(truck.id)
  {
    var feasible := PreFilter(truck, orders);
    if |orders| == 0 || |feasible| == 0 {
      result := CreateEmptyResult(truck.id);
      NothingFeasible(truck, orders);
      BestResultProperties(truck, orders, 0);
      return;
    }
    PreFilterValid(truck, orders);
    var bestMask := SearchBestMask(truck, feasible);
    var n := |feasible|;
    var selected := [];
    for i := 0 to n
      invariant selected == Select(feasible[..i], bestMask)
    {
      SelectStep(feasible, i, bestMask);
      if Bit(bestMask, i) {
        selected := selected + [feasible[i]];
      }
    }
    assert feasible[..n] == feasible;
    result := CreateResult(truck, selected);
    BestResultProperties(truck, orders, bestMask);
  }
}

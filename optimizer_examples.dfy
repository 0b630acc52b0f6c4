/** The optimizer's unit-test scenarios, stated as lemmas about the best mask. */
module OptimizerExamples {
  import opened Models
  import opened Optimizer
  import Validators

  function SampleTruck(): Truck {
    Truck("truck-123", 44000, 3000)
  }

  /** Two compatible loads from Los Angeles to Dallas and one hazmat load on the same lane. */
  function SampleOrders(): seq<Order> {
    [ Order("ord-001", 250000, 18000, 1200, "Los Angeles, CA", "Dallas, TX", 5, 9, false),
      Order("ord-002", 180000, 12000, 900, "Los Angeles, CA", "Dallas, TX", 4, 10, false),
      Order("ord-003", 320000, 30000, 1800, "Los Angeles, CA", "Dallas, TX", 6, 8, true) ]
  }

  /** The subset of a three-order list, spelled out bit by bit. */
  lemma SelectOfThree(s: seq<Order>, m: nat)
    requires |s| == 3
    ensures Select(s, m) == (if Bit(m, 0) then [s[0]] else []) + (if Bit(m, 1) then [s[1]] else [])
      + (if Bit(m, 2) then [s[2]] else [])
  {
    SelectStep(s, 0, m);
    SelectStep(s, 1, m);
    SelectStep(s, 2, m);
    assert s[..0] == [] && s[..3] == s;
  }

  lemma PairTotals(a: Order, b: Order)
    ensures TotalPayout([a, b]) == a.payoutCents + b.payoutCents
    ensures TotalWeight([a, b]) == a.weightLbs + b.weightLbs
    ensures TotalVolume([a, b]) == a.volumeCuft + b.volumeCuft
  {
    TotalsAppend([], a);
    TotalsAppend([a], b);
    assert [] + [a] == [a] && [a] + [b] == [a, b];
  }

  /** The mask's subset either fails the checks or pays at most `bound`. */
  ghost predicate NoBetterThan(t: Truck, s: seq<Order>, m: nat, bound: int) {
    Admissible(t, s, m) ==> Payout(s, m) <= bound
  }

  /** The subsets of a three-order list that leave out its last order (the sample's hazmat load), by mask. */
  lemma SampleSubsetsLow(s: seq<Order>)
    requires |s| == 3
    ensures Select(s, 1) == [s[0]] && Select(s, 2) == [s[1]] && Select(s, 3) == [s[0], s[1]]
  {
    assert Select(s, 1) == [s[0]] by { SelectOfThree(s, 1); }
    assert Select(s, 2) == [s[1]] by { SelectOfThree(s, 2); }
    assert Select(s, 3) == [s[0], s[1]] by { SelectOfThree(s, 3); }
  }

  /** The subsets of a three-order list that include its last order (the sample's hazmat load), by mask. */
  lemma SampleSubsetsHigh(s: seq<Order>)
    requires |s| == 3
    ensures Select(s, 4) == [s[2]] && Select(s, 5) == [s[0], s[2]] && Select(s, 6) == [s[1], s[2]]
    ensures Select(s, 7) == s
  {
    assert Select(s, 4) == [s[2]] by { SelectOfThree(s, 4); }
    assert Select(s, 5) == [s[0], s[2]] by { SelectOfThree(s, 5); }
    assert Select(s, 6) == [s[1], s[2]] by { SelectOfThree(s, 6); }
    assert Select(s, 7) == s by { SelectOfThree(s, 7); }
  }

  lemma SingleTotals(a: Order)
    ensures TotalPayout([a]) == a.payoutCents
    ensures TotalWeight([a]) == a.weightLbs && TotalVolume([a]) == a.volumeCuft
  {
    TotalsAppend([], a);
    assert [] + [a] == [a];
  }

  /**
   * Mask 3 is the only subset of the sample that reaches 430000; every mask
   * pairing the hazmat load (bit 2) with another load fails the checks.
   */
  lemma SampleMasks(m: nat)
    requires 1 <= m < 8
    ensures NoBetterThan(SampleTruck(), SampleOrders(), m, 430000)
    ensures m != 3 ==> NoBetterThan(SampleTruck(), SampleOrders(), m, 429999)
    ensures 5 <= m ==> !Admissible(SampleTruck(), SampleOrders(), m)
  {
    var t, s := SampleTruck(), SampleOrders();
    SampleSubsetsLow(s);
    SampleSubsetsHigh(s);
    var a, b, c := s[0], s[1], s[2];
    if m == 1 {
      SingleTotals(a);
    } else if m == 2 {
      SingleTotals(b);
    } else if m == 3 {
      PairTotals(a, b);
    } else if m == 4 {
      SingleTotals(c);
    } else if m == 5 {
      PairTotals(a, c);
    } else if m == 6 {
      var sel := [b, c];
      assert sel[0].isHazmat != sel[1].isHazmat;
      assert !Compatibility.UniformHazmat(sel);
    } else {
      PairTotals(a, b);
      TotalsAppend([a, b], c);
      assert [a, b] + [c] == s;
    }
  }

  /** Mask 3 (the first two loads) selects exactly those two, paying 430000. */
  lemma SampleMaskThree(t: Truck, s: seq<Order>)
    requires t == SampleTruck() && s == SampleOrders()
    ensures Select(s, 3) == s[..2]
    ensures Payout(s, 3) == 430000
    ensures TotalWeight(Select(s, 3)) == 30000 && TotalVolume(Select(s, 3)) == 2100
    ensures Admissible(t, s, 3)
  {
    SampleSubsetsLow(s);
    assert s[..2] == [s[0], s[1]];
    PairTotals(s[0], s[1]);
  }

  /** Mask 3 is the best mask over the sample: no mask beats it, none below it ties. */
  lemma SampleBestMask(t: Truck, s: seq<Order>)
    requires t == SampleTruck() && s == SampleOrders()
    ensures IsBestMask(t, s, 3)
  {
    assert Pow2(|s|) == 8 by {
      assert Pow2(1) == 2 && Pow2(2) == 4;
    }
    SampleMaskThree(t, s);
    assert Payout(s, 3) == 430000;
    assert Admissible(t, s, 3);
    assert forall m :: 1 <= m < Pow2(|s|) && Admissible(t, s, m) ==> Payout(s, m) <= Payout(s, 3) by {
      forall m | 1 <= m < Pow2(|s|) && Admissible(t, s, m) ensures Payout(s, m) <= Payout(s, 3) {
        SampleMasks(m);
        assert NoBetterThan(t, s, m, 430000);
      }
    }
    assert forall m :: 1 <= m < 3 && Admissible(t, s, m) ==> Payout(s, m) < Payout(s, 3) by {
      forall m | 1 <= m < 3 && Admissible(t, s, m) ensures Payout(s, m) < Payout(s, 3) {
        SampleMasks(m);
        assert NoBetterThan(t, s, m, 429999);
      }
    }
  }

  /**
   * The two non-hazmat loads are chosen together: payout 430000, weight
   * 30000, volume 2100. The hazmat load pays more alone but cannot join them.
   */
  lemma BasicLoadExample(t: Truck, s: seq<Order>)
    requires t == SampleTruck() && s == SampleOrders()
    ensures IsBestMask(t, PreFilter(t, s), 3)
    ensures CreateResult(t, Select(PreFilter(t, s), 3))
      == OptimizationResult("truck-123", ["ord-001", "ord-002"], 430000, 30000, 2100)
  {
    SampleFilter(t, s);
    SampleMaskThree(t, s);
    SampleBestMask(t, s);
    SamplePairResult(t, s[..2]);
  }

  /** Every sample order fits the sample truck alone, so the pre-filter keeps all three. */
  lemma SampleFilter(t: Truck, s: seq<Order>)
    requires t == SampleTruck() && s == SampleOrders()
    ensures PreFilter(t, s) == s
  {
    PreFilterKeepsAll(t, s);
  }

  /** The result record for the two non-hazmat sample loads. */
  lemma SamplePairResult(t: Truck, sel: seq<Order>)
    requires t == SampleTruck() && sel == SampleOrders()[..2]
    requires TotalPayout(sel) == 430000 && TotalWeight(sel) == 30000 && TotalVolume(sel) == 2100
    ensures CreateResult(t, sel) == OptimizationResult("truck-123", ["ord-001", "ord-002"], 430000, 30000, 2100)
  {
    assert sel == [SampleOrders()[0], SampleOrders()[1]];
  }

  /** Two loads into Dallas, one from Los Angeles and one from Chicago. */
  function SplitRouteOrders(): seq<Order> {
    [ Order("ord-001", 250000, 18000, 1200, "Los Angeles, CA", "Dallas, TX", 5, 9, false),
      Order("ord-002", 300000, 20000, 1500, "Chicago, IL", "Dallas, TX", 4, 10, false) ]
  }

  /** The subset of a two-order list, spelled out bit by bit. */
  lemma SelectOfTwo(s: seq<Order>, m: nat)
    requires |s| == 2
    ensures Select(s, m) == (if Bit(m, 0) then [s[0]] else []) + (if Bit(m, 1) then [s[1]] else [])
  {
    SelectStep(s, 0, m);
    SelectStep(s, 1, m);
    assert s[..0] == [] && s[..2] == s;
  }

  /** The three non-empty subsets of a two-order list, such as the split-route input, by mask. */
  lemma SplitRouteSubsets(s: seq<Order>)
    requires |s| == 2
    ensures Select(s, 1) == [s[0]] && Select(s, 2) == [s[1]] && Select(s, 3) == s
  {
    assert Select(s, 1) == [s[0]] by { SelectOfTwo(s, 1); }
    assert Select(s, 2) == [s[1]] by { SelectOfTwo(s, 2); }
    assert Select(s, 3) == s by { SelectOfTwo(s, 3); }
  }

  /** The two loads start from different cities, so together they fail the route rule. */
  lemma SplitRouteConflict(s: seq<Order>)
    requires s == SplitRouteOrders()
    ensures !Compatibility.SameRoute(s)
  {
    assert s[1].origin[0] != s[0].origin[0];
  }

  lemma SplitRouteMasks(t: Truck, s: seq<Order>)
    requires t == SampleTruck() && s == SplitRouteOrders()
    ensures Pow2(|s|) == 4
    ensures Select(s, 2) == [s[1]]
    ensures Payout(s, 1) == 250000 && Payout(s, 2) == 300000
    ensures Admissible(t, s, 2) && !Admissible(t, s, 3)
  {
    assert Pow2(1) == 2;
    SplitRouteSubsets(s);
    SingleTotals(s[0]);
    SingleTotals(s[1]);
    SplitRouteConflict(s);
  }

  /**
   * Different origins: the loads fit together but are never co-selected;
   * the higher-paying Chicago load is chosen alone.
   */
  lemma SplitRouteBestMask(t: Truck, s: seq<Order>)
    requires t == SampleTruck() && s == SplitRouteOrders()
    ensures IsBestMask(t, s, 2)
    ensures Select(s, 2) == [s[1]]
  {
    SplitRouteMasks(t, s);
    assert forall m :: 1 <= m < Pow2(|s|) && Admissible(t, s, m) ==> Payout(s, m) <= Payout(s, 2) by {
      forall m | 1 <= m < Pow2(|s|) && Admissible(t, s, m) ensures Payout(s, m) <= Payout(s, 2) {
        assert m < 4 && m != 3;
        if m == 1 {
          assert Payout(s, 1) < Payout(s, 2);
        } else {
          assert m == 2;
        }
      }
    }
    assert forall m :: 1 <= m < 2 && Admissible(t, s, m) ==> Payout(s, m) < Payout(s, 2) by {
      forall m | 1 <= m < 2 && Admissible(t, s, m) ensures Payout(s, m) < Payout(s, 2) {
        assert m == 1;
      }
    }
  }

  /** The optimizer returns exactly one order on the split-route input: ord-002. */
  lemma SplitRouteExample(t: Truck, s: seq<Order>)
    requires t == SampleTruck() && s == SplitRouteOrders()
    ensures IsBestMask(t, PreFilter(t, s), 2)
    ensures CreateResult(t, Select(PreFilter(t, s), 2)).selectedOrderIds == ["ord-002"]
  {
    SplitRouteFilter(t, s);
    SplitRouteBestMask(t, s);
  }

  /** Both split-route loads fit the sample truck alone, so the pre-filter keeps both. */
  lemma SplitRouteFilter(t: Truck, s: seq<Order>)
    requires t == SampleTruck() && s == SplitRouteOrders()
    ensures PreFilter(t, s) == s
  {
    PreFilterKeepsAll(t, s);
  }
}

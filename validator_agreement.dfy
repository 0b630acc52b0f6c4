/**
 * How the standalone validator relates to the optimizer's own check: the
 * standalone one is strictly stronger, because only it looks at dates.
 */
module ValidatorAgreement {
  import opened Models
  import opened Constants
  import Validators
  import Optimizer

  /** Whatever the standalone validator accepts, the optimizer's check accepts too. */
  lemma StandaloneImpliesFastPath(orders: seq<Order>)
    ensures Validators.ValidateOrdersCompatibility(orders).0 ==> Optimizer.ValidateOrdersCompatibility(orders).0
  {
  }

  /** The two validators report the same verdict on any load whose dates are in order and within the span. */
  lemma AgreeOnRouteAndHazmat(orders: seq<Order>)
    requires Validators.WindowsValid(orders) && Validators.WithinSpan(orders)
    ensures Validators.ValidateOrdersCompatibility(orders) == Optimizer.ValidateOrdersCompatibility(orders)
  {
  }

  /** One order delivered the day before its pickup. */
  function BackwardsOrder(): Order {
    Order("ord-1", 1000, 10, 10, "A", "B", 10, 9, false)
  }

  /** The optimizer's check lets a backwards time window through; the standalone one does not. */
  lemma FastPathIgnoresInvalidWindow()
    ensures Optimizer.ValidateOrdersCompatibility([BackwardsOrder()]) == (true, "")
    ensures Validators.ValidateOrdersCompatibility([BackwardsOrder()]) == (false, INVALID_TIME_WINDOW)
  {
    var orders := [BackwardsOrder()];
    assert !Validators.WindowsValid(orders) by {
      assert orders[0].deliveryDate < orders[0].pickupDate;
    }
  }

  /** Two orders on one route whose dates span `days` days. */
  function SpanPair(days: int): seq<Order> {
    [ Order("ord-1", 1000, 10, 10, "A", "B", 0, 1, false),
      Order("ord-2", 1000, 10, 10, "A", "B", 0, days, false) ]
  }

  /** A span of exactly thirty days is accepted, thirty-one is not; the optimizer accepts both. */
  lemma SpanBoundary()
    ensures Validators.ValidateOrdersCompatibility(SpanPair(30)) == (true, "")
    ensures Validators.ValidateOrdersCompatibility(SpanPair(31)) == (false, TIME_WINDOW_TOO_WIDE)
    ensures Optimizer.ValidateOrdersCompatibility(SpanPair(31)) == (true, "")
  {
    var wide := SpanPair(31);
    assert !Validators.WithinSpan(wide) by {
      assert wide[1].deliveryDate - wide[0].pickupDate > MAX_TIME_WINDOW_GAP_DAYS;
    }
  }
}

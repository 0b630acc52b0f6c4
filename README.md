# Load optimizer — a Dafny model

The load optimizer picks freight orders for one truck. It takes one truck and a list of candidate orders. It returns the subset with the highest total payout that fits the truck's weight and volume limits and whose orders are compatible. Compatible means one origin and destination for all orders, and no mix of hazmat and non-hazmat freight. This project models the two parts of that engine and proves their properties:

- **The optimizer** (`optimizer.dfy`, module `Optimizer`) works in five steps:
  - it drops every order that does not fit the empty truck on its own;
  - it enumerates every non-empty bitmask `1 .. 2^n - 1` over the remaining `n` orders, in ascending order;
  - it adds up each mask's members in index order and abandons the mask at the first member that would overflow weight or volume;
  - it discards incompatible subsets;
  - it keeps the first subset whose payout is strictly greater than the best so far, then rebuilds the chosen orders and builds the result record.
- **The standalone validator** (`validators.dfy`, module `Validators`) applies the same route and hazmat rules. It also checks dates: no order may be delivered before it is picked up, and the earliest pickup and latest delivery may be at most 30 days apart. It also provides the sum-and-compare capacity check.

Supporting modules:
- `models.dfy` (`Models`) holds the truck, order and result records, the schema constraints as predicates, and the running sums.
- `constants.dfy` (`Constants`) holds the limits and messages.
- `compatibility.dfy` (`Compatibility`) holds the route scan and the hazmat-status set that both validators run, and what those decide.
- `subsequences.dfy` (`Subsequences`) defines order-preserving subsequences.
- `validator_agreement.dfy` relates the two validators.
- `optimizer_examples.dfy` restates the unit-test scenarios as lemmas.

How the optimizer is specified:
- The enumeration is imperative, as in the source. `TryMask` is the inner loop over one mask. `SearchBestMask` is the loop over all masks. `OptimizeBruteforce` does the pre-filter, the early returns and the reconstruction loop.
- `SearchBestMask` is proved against the predicate `IsBestMask`. The chosen mask is 0 (nothing chosen) or an admissible subset with positive payout. No admissible subset pays more. Every admissible subset with a lower mask pays strictly less. "Admissible" means it fits the truck by `Validators.ValidateCapacity` and passes the optimizer's compatibility check.
- `BestMaskUnique` shows these conditions pin down one mask. So the result is determined by the input.
- Bit `i` of a mask is read as `mask & (1 << i)`. It is written as repeated halving.

Behaviour of the code that the model keeps as written:
- A single order that fits but pays 0 is **not** selected. The best payout starts at 0 (src/optimizer.py:55) and a subset replaces the best only when its payout is strictly greater (src/optimizer.py:93). See `SingleFeasibleOrder`.
- The optimizer's compatibility check never looks at dates, although its docstring lists time windows as the third rule (src/optimizer.py:16). Only the standalone validator checks them (`FastPathIgnoresInvalidWindow`, `SpanBoundary`).
- Duplicate orders are independent items. The pre-filter keeps every occurrence of a fitting order (`PreFilterCounts`), and nothing in the model depends on identifiers being unique.

Helpers that model single source expressions and carry no row of their own:
`Compatibility.HazmatStatuses` is the set of flags (src/optimizer.py:28);
`Optimizer.FitsAlone` is the pre-filter condition (src/optimizer.py:46-47);
`Optimizer.Bit` is `mask & (1 << i)` (src/optimizer.py:71, 102) and `Optimizer.Pow2` is `1 << n` (src/optimizer.py:60);
`Models.TotalPayout`, `Models.TotalWeight` and `Models.TotalVolume` are the sums (src/optimizer.py:112-114, src/validators.py:50-51);
`Models.Ids` is the list of identifiers (src/optimizer.py:121).

## Model

| member | source | states |
|---|---|---|
| `Compatibility.AllOnRoute` | src/optimizer.py:21-25 | the early-return route scan returns true exactly when every scanned order has the given origin and destination |
| `Compatibility.RouteScanDecidesSameRoute` | src/validators.py:19-23 | scanning `orders[1:]` against the first order decides "every order has the first order's origin and destination" |
| `Compatibility.HazmatStatusesMixed` | src/optimizer.py:27-30 | the set of distinct hazmat flags has more than one element exactly when two orders disagree on the flag |
| `Optimizer.ValidateOrdersCompatibility` | src/optimizer.py:11-32 | `(True, "")` on an empty list; true exactly when the route is shared and the hazmat flags agree; a route mismatch reports the route message even when hazmat is also mixed; a hazmat mix on a shared route reports the hazmat message |
| `Optimizer.PreFilter` | src/optimizer.py:43-48 | keeps exactly the orders that fit the truck on their own, each as many times as it occurs in the input; empty when no order fits |
| `Optimizer.PreFilterCounts` | src/optimizer.py:43-48 | each order occurs in the filtered list exactly as often as in the input when it fits on its own, and not at all otherwise |
| `Optimizer.PreFilterKeepsAll` | src/optimizer.py:43-48 | when every order fits on its own the filtered list is the input unchanged |
| `Optimizer.PreFilterSubseq` | src/optimizer.py:43-48 | the filtered list is a subsequence of the input, order preserved |
| `Optimizer.Select` | src/optimizer.py:100-103 | the members of a mask are drawn from the list and are no more than it |
| `Optimizer.SelectZero` | src/optimizer.py:54-57 | the baseline mask 0 selects nothing, so the baseline payout, weight and volume are 0 |
| `Optimizer.SelectSubseq` | src/optimizer.py:100-103 | a mask's members appear in ascending index order: a subsequence of the list |
| `Optimizer.SelectPrefixTotals` | src/optimizer.py:70-81 | with positive weights and volumes, the running totals over a prefix never exceed those of the whole subset |
| `Optimizer.TryMask` | src/optimizer.py:62-85 | a mask is pruned exactly when its whole subset's weight or volume exceeds the truck's maximum; an unpruned mask yields its members in index order and their exact weight, volume and payout sums |
| `Optimizer.SearchBestMask` | src/optimizer.py:53-97 | the kept mask is below `2^n`; it is 0 or an admissible subset with positive payout; it pays at least as much as every admissible subset; every admissible lower mask pays strictly less |
| `Optimizer.CreateEmptyResult` | src/optimizer.py:129-139 | the empty result keeps the truck id, selects no orders and has all totals 0 |
| `Optimizer.CreateResult` | src/optimizer.py:107-127 | the result carries the truck id, the ids of the given orders in their order, and totals equal to the sums of their payout, weight and volume; an empty list gives the empty result |
| `Optimizer.BestSelectionProperties` | src/optimizer.py:88-105 | the chosen orders fit the truck, pass the optimizer's compatibility check, each fit on their own, come from the input, and their ids are a subsequence of the input ids |
| `Optimizer.BestResultProperties` | src/optimizer.py:39-105 | the result built from the best mask is within both capacity limits, keeps the truck id, lists a subsequence of the input ids, and is the empty result when no order fits on its own |
| `Optimizer.BestMaskUnique` | src/optimizer.py:92-97 | strict improvement in ascending mask order leaves exactly one possible best mask, so the outcome is deterministic |
| `Optimizer.SingleFeasibleOrder` | src/optimizer.py:93-97 | one order that fits is chosen exactly when its payout is positive; a zero-payout order never replaces the empty baseline |
| `Optimizer.NothingFeasible` | src/optimizer.py:50-51 | when the pre-filter leaves nothing, mask 0 is the best mask and its result is the empty result |
| `Optimizer.OptimizeBruteforce` | src/optimizer.py:34-105 | the result is built from a best mask over the pre-filtered orders; it keeps the truck id, respects both capacity limits, lists a subsequence of the input ids, and is the empty result for an empty list or when every order is individually too heavy or too large |
| `Validators.MinPickup` | src/validators.py:32 | the earliest pickup is no later than any order's pickup and is some order's pickup |
| `Validators.MaxDelivery` | src/validators.py:33 | the latest delivery is no earlier than any order's delivery and is some order's delivery |
| `Validators.AllWindowsValid` | src/validators.py:35-38 | the early-return scan passes exactly when every order is picked up on or before its delivery |
| `Validators.SpanCheckDecidesWithinSpan` | src/validators.py:42-43 | `max(delivery) - min(pickup) > 30` holds exactly when some delivery lies more than 30 days after some pickup |
| `Validators.ValidateOrdersCompatibility` | src/validators.py:9-45 | `(True, "")` on an empty list; the route message first, then the hazmat message, then the invalid-window message, then the too-wide message; true exactly when route, hazmat, every window and the 30-day span all pass |
| `Validators.ValidateCapacity` | src/validators.py:48-54 | holds for the empty list when both truck maxima are positive |
| `Validators.CapacityImpliesEachFits` | src/validators.py:48-54 | with positive weights and volumes, a load that passes the capacity check has every order within both maxima on its own |
| `ValidatorAgreement.StandaloneImpliesFastPath` | src/validators.py:19-28 | every load the standalone validator accepts is accepted by the optimizer's check |
| `ValidatorAgreement.AgreeOnRouteAndHazmat` | src/validators.py:19-28 | when windows are valid and within 30 days, both validators return the same verdict and message |
| `ValidatorAgreement.FastPathIgnoresInvalidWindow` | src/validators.py:35-38 | an order delivered before its pickup passes the optimizer's check but fails the standalone one with the invalid-window message, so the converse of the implication fails |
| `ValidatorAgreement.SpanBoundary` | src/validators.py:42-43 | a span of exactly 30 days is accepted; 31 days gets the too-wide message, while the optimizer's check still accepts it |
| `OptimizerExamples.BasicLoadExample` | tests/test_optimizer.py:43-59 | on the three sample orders the best mask takes the two non-hazmat loads: ids ord-001 and ord-002, payout 430000, weight 30000, volume 2100 |
| `OptimizerExamples.SampleMasks` | tests/test_optimizer.py:6-41 | among the sample's seven subsets, every admissible one other than the two non-hazmat loads together pays less than 430000; every subset pairing the hazmat load with another load is inadmissible |
| `OptimizerExamples.SplitRouteExample` | tests/test_optimizer.py:120-159 | two orders on different routes are never taken together; exactly one is chosen, the higher-paying ord-002 |

## Left out

- Utilization percentages (src/optimizer.py:116-117, 125-126) are float division and rounding. The result record carries the integer totals only.
- The `cache_hits`/`cache_misses` counters (src/optimizer.py:8-9) are never read. `LoadOptimizer` therefore has no state, and its methods are module-level functions and methods here.
- The HTTP layer in src/main.py is not part of this model. Its 25-order limit appears only as the precondition `|orders| <= MAX_ORDERS` on `Optimizer.OptimizeBruteforce`.
- Pydantic schema validation (src/models.py) is not modelled. Its field constraints are the preconditions `ValidTruck` and `ValidOrder`. Dates are integer day numbers instead of calendar dates.
- Import problems in src/validators.py are packaging issues, not logic: the module imports `constants` without the `src.` prefix, and `Truck` is not imported.
- Running time and the time tests in test_performance.py are not modelled. The optimizer's time grows as `n · 2^n`.
- Monotonicity is not proved: removing a candidate order never raises the best payout. A proof needs a mapping between the masks of two differently filtered lists, and this model does not build one.
- Four messages in src/constants.py are used nowhere in the source: invalid input, no feasible solution, payload too large and time-window conflict. src/main.py does not import src/constants.py and defines its own `MAX_ORDERS` (src/main.py:19). These messages are not modelled.

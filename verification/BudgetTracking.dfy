/**
 The per-run budget tracker and the cost arithmetic (budget.rs): cumulative usage in saturating
 counters, its estimated cost, and the limits that stop a run once crossed.
 */
module BudgetTracking {
  import opened Wrappers
  import opened Budget

  datatype Policy = Policy(maxTotalTokens: Option<u64>, maxCostUsd: Option<real>, pricing: Option<Pricing>)

  datatype TrackerError = BudgetExceeded | InvalidPolicy

  datatype Snapshot = Snapshot(usage: Usage, costUsd: real)

  function ValidatePolicy(p: Policy): Result<(), TrackerError> {
    if p.maxCostUsd.Some? && p.maxCostUsd.value < 0.0 then Err(InvalidPolicy)
    else if p.maxCostUsd.Some? && p.pricing.None? then Err(BudgetExceeded)
    else if p.pricing.Some? && !ValidPricing(p.pricing.value) then Err(InvalidPolicy)
    else Ok(())
  }

  function AddUsage(total: Usage, part: Usage): Usage {
    Usage(SatAdd(total.input, part.input), SatAdd(total.output, part.output),
          SatAdd(total.cacheCreation, part.cacheCreation), SatAdd(total.cacheRead, part.cacheRead),
          SatAdd(total.reasoning, part.reasoning))
  }

  function EstimateCost(p: Policy, usage: Usage): real {
    if p.pricing.None? then 0.0 else ExactCost(p.pricing.value, usage) / 1000000.0
  }

  predicate OverTokens(p: Policy, usage: Usage) {
    p.maxTotalTokens.Some? && SatAdd(usage.input, usage.output) > p.maxTotalTokens.value
  }

  predicate OverCost(p: Policy, usage: Usage) {
    p.maxCostUsd.Some? && EstimateCost(p, usage) > p.maxCostUsd.value
  }

  /** The tracker after recording `parts` in order. */
  function Total(parts: seq<Usage>): Usage {
    if parts == [] then NO_USAGE else AddUsage(Total(parts[..|parts| - 1]), parts[|parts| - 1])
  }

  class BudgetTracker {
    const policy: Policy
    var usage: Usage
    var costUsd: real

    constructor (policy: Policy)
      ensures this.policy == policy && usage == NO_USAGE && costUsd == 0.0
    {
      this.policy, usage, costUsd := policy, NO_USAGE, 0.0;
    }

    method Record(part: Usage) returns (r: Result<Snapshot, TrackerError>)
      modifies this
      ensures usage == AddUsage(old(usage), part) && costUsd == EstimateCost(policy, usage)
      ensures r.Err? <==> OverTokens(policy, usage) || OverCost(policy, usage)
      ensures r == if r.Err? then Err(BudgetExceeded) else Ok(Snapshot(usage, costUsd))
    {
      usage := AddUsage(usage, part);
      costUsd := EstimateCost(policy, usage);
      var totalTokens := SatAdd(usage.input, usage.output);
      if policy.maxTotalTokens.Some? && totalTokens > policy.maxTotalTokens.value {
        return Err(BudgetExceeded);
      }
      if policy.maxCostUsd.Some? && costUsd > policy.maxCostUsd.value {
        return Err(BudgetExceeded);
      }
      return Ok(Snapshot(usage, costUsd));
    }
  }

  method NewTracker(policy: Policy) returns (r: Result<BudgetTracker, TrackerError>)
    ensures r.Ok? <==> ValidatePolicy(policy).Ok?
    ensures r.Err? ==> r.error == ValidatePolicy(policy).error
    ensures r.Ok? ==> fresh(r.value) && r.value.policy == policy && r.value.usage == Total([])
  {
    var valid := ValidatePolicy(policy);
    if valid.Err? {
      return Err(valid.error);
    }
    var tracker := new BudgetTracker(policy);
    return Ok(tracker);
  }

  // ---------------------------------------------------------------- cost arithmetic

  lemma PriceGrows(tokens: nat, more: nat, rate: real)
    requires tokens <= more && rate >= 0.0
    ensures 0.0 <= Price(tokens, rate) <= Price(more, rate)
  {
  }

  lemma PriceAtDearerRate(tokens: nat, rate: real, dearer: real)
    requires rate <= dearer
    ensures Price(tokens, rate) <= Price(tokens, dearer)
  {
  }

  lemma PriceOfNothing(rate: real)
    ensures Price(0, rate) == 0.0
  {
  }

  lemma PriceIsAdditive(a: nat, b: nat, rate: real)
    ensures Price(a + b, rate) == Price(a, rate) + Price(b, rate)
  {
  }

  lemma CeilMonotone(x: real, y: real)
    requires x <= y
    ensures Ceil(x) <= Ceil(y)
  {
  }

  predicate CacheReadsWithinInput(u: Usage) {
    u.cacheRead <= u.input
  }

  /** Adding `v` to `u` overflows none of the priced counters. */
  predicate Fits(u: Usage, v: Usage) {
    u.input + v.input <= MAX && u.output + v.output <= MAX && u.cacheCreation + v.cacheCreation <= MAX
    && u.cacheRead + v.cacheRead <= MAX
  }

  lemma CostIsAdditive(p: Pricing, u: Usage, v: Usage)
    requires CacheReadsWithinInput(u) && CacheReadsWithinInput(v) && Fits(u, v)
    ensures CacheReadsWithinInput(AddUsage(u, v))
    ensures ExactCost(p, AddUsage(u, v)) == ExactCost(p, u) + ExactCost(p, v)
  {
    hide Price;
    PriceIsAdditive(Uncached(u), Uncached(v), p.input);
    PriceIsAdditive(u.output, v.output, p.output);
    PriceIsAdditive(u.cacheRead, v.cacheRead, RateOr(p.cacheRead, p.input));
    PriceIsAdditive(u.cacheCreation, v.cacheCreation, RateOr(p.cacheWrite, p.input));
  }

  lemma CostIsNonNegative(p: Pricing, u: Usage)
    requires ValidPricing(p)
    ensures ExactCost(p, u) >= 0.0
  {
    hide Price;
    PriceGrows(Uncached(u), Uncached(u), p.input);
    PriceGrows(u.output, u.output, p.output);
    PriceGrows(u.cacheRead, u.cacheRead, RateOr(p.cacheRead, p.input));
    PriceGrows(u.cacheCreation, u.cacheCreation, RateOr(p.cacheWrite, p.input));
  }

  /** No counter saturates while `parts` are recorded. */
  predicate NeverSaturates(parts: seq<Usage>) {
    parts == [] || (NeverSaturates(parts[..|parts| - 1]) && Fits(Total(parts[..|parts| - 1]), parts[|parts| - 1]))
  }

  predicate AllWithinInput(parts: seq<Usage>) {
    forall i :: 0 <= i < |parts| ==> CacheReadsWithinInput(parts[i])
  }

  function SumOfCosts(p: Pricing, parts: seq<Usage>): real {
    if parts == [] then 0.0 else SumOfCosts(p, parts[..|parts| - 1]) + ExactCost(p, parts[|parts| - 1])
  }

  /** The tracker's cumulative cost is the sum of the calls' own costs. */
  lemma {:induction false} CumulativeCostIsSumOfCalls(p: Pricing, parts: seq<Usage>)
    requires AllWithinInput(parts) && NeverSaturates(parts)
    ensures CacheReadsWithinInput(Total(parts)) && ExactCost(p, Total(parts)) == SumOfCosts(p, parts)
  {
    if parts != [] {
      var earlier := parts[..|parts| - 1];
      CumulativeCostIsSumOfCalls(p, earlier);
      CostIsAdditive(p, Total(earlier), parts[|parts| - 1]);
    }
  }

  /** A prefix of what was recorded never cost more than the whole. */
  lemma {:induction false} CostNeverFalls(p: Pricing, parts: seq<Usage>, n: nat)
    requires ValidPricing(p) && AllWithinInput(parts) && NeverSaturates(parts) && n <= |parts|
    ensures NeverSaturates(parts[..n]) && ExactCost(p, Total(parts[..n])) <= ExactCost(p, Total(parts))
    decreases |parts| - n
  {
    if n == |parts| {
      assert parts[..n] == parts;
    } else {
      var earlier := parts[..|parts| - 1];
      CostNeverFalls(p, earlier, n);
      assert earlier[..n] == parts[..n];
      CumulativeCostIsSumOfCalls(p, earlier);
      CumulativeCostIsSumOfCalls(p, parts);
      CostIsNonNegative(p, parts[|parts| - 1]);
    }
  }

  /** Once the cost limit is crossed, every later record is refused too. */
  lemma CostLimitIsSticky(policy: Policy, parts: seq<Usage>, n: nat)
    requires ValidatePolicy(policy).Ok? && AllWithinInput(parts) && NeverSaturates(parts) && n <= |parts|
    requires OverCost(policy, Total(parts[..n]))
    ensures OverCost(policy, Total(parts))
  {
    CostNeverFalls(policy.pricing.value, parts, n);
  }

  /** Once the token limit is crossed, every later record is refused too, whatever is reported. */
  lemma {:induction false} TokenLimitIsSticky(policy: Policy, parts: seq<Usage>, n: nat)
    requires n <= |parts| && OverTokens(policy, Total(parts[..n]))
    ensures OverTokens(policy, Total(parts))
    decreases |parts| - n
  {
    hide SatAdd, AddUsage;
    if n == |parts| {
      assert parts[..n] == parts;
    } else {
      var earlier := parts[..|parts| - 1];
      assert earlier[..n] == parts[..n];
      TokenLimitIsSticky(policy, earlier, n);
      TokensGrow(Total(earlier), parts[|parts| - 1]);
    }
  }

  lemma TokensGrow(total: Usage, part: Usage)
    ensures var next := AddUsage(total, part);
            SatAdd(total.input, total.output) <= SatAdd(next.input, next.output)
  {
  }

  /** Without the bound on cache reads the cumulative cost can fall, and a crossed limit can reopen. */
  lemma ExcessCacheReadsLowerTheCost()
    ensures var policy := Policy(None, Some(1.5), Some(Pricing(1000000.0, 0.0, Some(0.0), None)));
            var parts := [Usage(2, 0, 0, 0, 0), Usage(0, 0, 0, 2, 0)];
            ValidatePolicy(policy).Ok? && NeverSaturates(parts)
            && OverCost(policy, Total(parts[..1])) && !OverCost(policy, Total(parts))
  {
    var first, second := Usage(2, 0, 0, 0, 0), Usage(0, 0, 0, 2, 0);
    var parts := [first, second];
    assert parts[..1] == [first] && [first][..0] == [];
    assert Total([first]) == first;
    assert Total(parts) == Usage(2, 0, 0, 2, 0);
  }

  lemma CostGrowsWithUncached(p: Pricing, total: Usage, part: Usage)
    requires ValidPricing(p) && Fits(total, part) && Uncached(total) <= Uncached(AddUsage(total, part))
    ensures ExactCost(p, total) <= ExactCost(p, AddUsage(total, part))
  {
    hide Price;
    var next := AddUsage(total, part);
    PriceGrows(Uncached(total), Uncached(next), p.input);
    PriceGrows(total.output, next.output, p.output);
    PriceGrows(total.cacheRead, next.cacheRead, RateOr(p.cacheRead, p.input));
    PriceGrows(total.cacheCreation, next.cacheCreation, RateOr(p.cacheWrite, p.input));
  }

  /**
   The exact condition: recording `part` can lower the cumulative cost under no pricing at all if and
   only if it reports cache reads within its input, or no uncached input was recorded before it.
   */
  lemma CostCannotFallExactly(total: Usage, part: Usage)
    requires Fits(total, part)
    ensures (forall p: Pricing :: ValidPricing(p) ==> ExactCost(p, total) <= ExactCost(p, AddUsage(total, part)))
            <==> CacheReadsWithinInput(part) || total.input <= total.cacheRead
  {
    var next := AddUsage(total, part);
    if CacheReadsWithinInput(part) || total.input <= total.cacheRead {
      forall p: Pricing | ValidPricing(p)
        ensures ExactCost(p, total) <= ExactCost(p, next)
      {
        CostGrowsWithUncached(p, total, part);
      }
    } else {
      var inputOnly := Pricing(1.0, 0.0, Some(0.0), Some(0.0));
      assert ExactCost(inputOnly, total) == Uncached(total) as real && ExactCost(inputOnly, next) == Uncached(next) as real;
      assert Uncached(next) < Uncached(total);
      assert ValidPricing(inputOnly) && !(ExactCost(inputOnly, total) <= ExactCost(inputOnly, next));
    }
  }

  lemma CostGrowsWithoutDiscount(p: Pricing, total: Usage, part: Usage)
    requires ValidPricing(p) && Fits(total, part) && p.input <= RateOr(p.cacheRead, p.input)
    ensures ExactCost(p, total) <= ExactCost(p, AddUsage(total, part))
  {
    hide Price;
    var next := AddUsage(total, part);
    var cached := RateOr(p.cacheRead, p.input);
    PriceGrows(total.output, next.output, p.output);
    PriceGrows(total.cacheCreation, next.cacheCreation, RateOr(p.cacheWrite, p.input));
    PriceIsAdditive(total.cacheRead, part.cacheRead, cached);
    PriceAtDearerRate(part.cacheRead, p.input, cached);
    PriceIsAdditive(Uncached(next), part.cacheRead, p.input);
    PriceGrows(Uncached(total), Uncached(next) + part.cacheRead, p.input);
  }

  /**
   The exact condition on the tracker's own pricing: no report at all can lower the cumulative cost if
   and only if cache reads are no cheaper than input, as they are when no rate for them is given.
   */
  lemma PricingKeepsCostFromFalling(p: Pricing)
    requires ValidPricing(p)
    ensures (forall total, part :: Fits(total, part) ==> ExactCost(p, total) <= ExactCost(p, AddUsage(total, part)))
            <==> p.input <= RateOr(p.cacheRead, p.input)
  {
    if p.input <= RateOr(p.cacheRead, p.input) {
      forall total, part | Fits(total, part)
        ensures ExactCost(p, total) <= ExactCost(p, AddUsage(total, part))
      {
        CostGrowsWithoutDiscount(p, total, part);
      }
    } else {
      var total, part := Usage(1, 0, 0, 0, 0), Usage(0, 0, 0, 1, 0);
      assert Fits(total, part);
      assert ExactCost(p, total) == p.input && ExactCost(p, AddUsage(total, part)) == RateOr(p.cacheRead, p.input);
    }
  }

  /** Under such a pricing a crossed cost limit stays crossed, whatever cache reads are reported. */
  lemma {:induction false} CostLimitIsStickyWithoutDiscount(policy: Policy, parts: seq<Usage>, n: nat)
    requires ValidatePolicy(policy).Ok? && NeverSaturates(parts) && n <= |parts| && OverCost(policy, Total(parts[..n]))
    requires policy.pricing.value.input <= RateOr(policy.pricing.value.cacheRead, policy.pricing.value.input)
    ensures OverCost(policy, Total(parts))
    decreases |parts| - n
  {
    hide ExactCost, AddUsage, Fits;
    if n == |parts| {
      assert parts[..n] == parts;
    } else {
      var earlier := parts[..|parts| - 1];
      assert earlier[..n] == parts[..n];
      CostLimitIsStickyWithoutDiscount(policy, earlier, n);
      CostGrowsWithoutDiscount(policy.pricing.value, Total(earlier), parts[|parts| - 1]);
    }
  }

  /**
   A call that stays within its reservation, writes no cache and reads cache no dearer than input
   never costs more than was reserved for it.
   */
  lemma CallWithinReservationCostsNoMore(p: Pricing, input: u64, output: u64, u: Usage)
    requires ValidPricing(p) && RateOr(p.cacheRead, p.input) <= p.input
    requires u.input <= input && u.output <= output && CacheReadsWithinInput(u) && u.cacheCreation == 0
    requires CostMicroUsd(p, Usage(input, output, 0, 0, 0)).Ok?
    ensures CostMicroUsd(p, u).Ok?
    ensures CostMicroUsd(p, u).value <= CostMicroUsd(p, Usage(input, output, 0, 0, 0)).value
  {
    var reserved := Usage(input, output, 0, 0, 0);
    ReservationBoundsCost(p, reserved, u);
    CostIsNonNegative(p, u);
    CeilMonotone(0.0, ExactCost(p, u));
    CeilMonotone(ExactCost(p, u), ExactCost(p, reserved));
  }

  lemma ReservationBoundsCost(p: Pricing, reserved: Usage, u: Usage)
    requires ValidPricing(p) && RateOr(p.cacheRead, p.input) <= p.input
    requires reserved.cacheRead == 0 && reserved.cacheCreation == 0 && u.cacheCreation == 0
    requires u.input <= reserved.input && u.output <= reserved.output && CacheReadsWithinInput(u)
    ensures ExactCost(p, u) <= ExactCost(p, reserved)
  {
    hide Price;
    var cached := RateOr(p.cacheRead, p.input);
    PriceOfNothing(cached);
    PriceOfNothing(RateOr(p.cacheWrite, p.input));
    PriceAtDearerRate(u.cacheRead, cached, p.input);
    PriceIsAdditive(Uncached(u), u.cacheRead, p.input);
    PriceGrows(u.input, reserved.input, p.input);
    PriceGrows(u.output, reserved.output, p.output);
  }

  // ---------------------------------------------------------------- what a token costs

  /** One token of each kind, alone, costs a millionth of its rate in dollars, its rate in micro-dollars. */
  lemma OneTokenOfEachKind(p: Pricing)
    ensures ExactCost(p, Usage(1, 0, 0, 0, 0)) == p.input
    ensures ExactCost(p, Usage(0, 1, 0, 0, 0)) == p.output
    ensures ExactCost(p, Usage(0, 0, 1, 0, 0)) == RateOr(p.cacheWrite, p.input)
    ensures ExactCost(p, Usage(1, 0, 0, 1, 0)) == RateOr(p.cacheRead, p.input)
    ensures ExactCost(p, Usage(0, 0, 0, 0, 1)) == 0.0
    ensures EstimateCost(Policy(None, None, Some(p)), Usage(0, 1, 0, 0, 0)) * 1000000.0 == p.output
  {
  }

  lemma CeilIsLeast(x: real, n: int)
    ensures x <= Ceil(x) as real
    ensures x <= n as real ==> Ceil(x) <= n
  {
  }

  /** A charge is the least whole number of micro-dollars not below the exact cost, short of the maximum. */
  lemma ChargeIsLeastWholeNumber(p: Pricing, u: Usage, n: nat)
    requires CostMicroUsd(p, u).Ok? && CostMicroUsd(p, u).value < MAX
    ensures ExactCost(p, u) <= CostMicroUsd(p, u).value as real
    ensures ExactCost(p, u) <= n as real ==> CostMicroUsd(p, u).value <= n
  {
    hide ExactCost;
    CeilIsLeast(ExactCost(p, u), n);
  }

  /** A cost can be computed if and only if the pricing is valid and the cost is not beyond the range. */
  lemma CostIsComputableExactly(p: Pricing, u: Usage)
    ensures CostMicroUsd(p, u).Ok? <==> ValidPricing(p) && ExactCost(p, u) <= (MAX + 1) as real
  {
    hide ExactCost;
    CeilIsLeast(ExactCost(p, u), MAX + 1);
    if ValidPricing(p) {
      CostIsNonNegative(p, u);
    }
  }

  // ---------------------------------------------------------------- the totals

  datatype Counter = InputCounter | OutputCounter | WriteCounter | ReadCounter | ReasoningCounter

  function Reading(u: Usage, c: Counter): u64 {
    match c
    case InputCounter => u.input
    case OutputCounter => u.output
    case WriteCounter => u.cacheCreation
    case ReadCounter => u.cacheRead
    case ReasoningCounter => u.reasoning
  }

  function SumOfReadings(parts: seq<Usage>, c: Counter): nat {
    if parts == [] then 0 else SumOfReadings(parts[..|parts| - 1], c) + Reading(parts[|parts| - 1], c)
  }

  /** Every counter of the tracker is the saturated sum of what was reported for it. */
  lemma {:induction false} TotalsAreSaturatedSums(parts: seq<Usage>, c: Counter)
    ensures Reading(Total(parts), c) == Cap(SumOfReadings(parts, c))
  {
    if parts != [] {
      TotalsAreSaturatedSums(parts[..|parts| - 1], c);
    }
  }
}

/**
 The shared budget ledger (budget.rs): worst-case capacity is reserved before a model call and
 settled afterwards, in saturating 64-bit counters. Monetary rates are exact reals; costs are
 rounded up to whole micro-dollars.
 */
module Budget {
  import opened Wrappers

  const MAX: nat := 0xFFFF_FFFF_FFFF_FFFF

  type u64 = x: nat | x <= MAX

  function Cap(x: nat): (r: u64)
    ensures r <= x
  {
    if x <= MAX then x else MAX
  }

  function SatAdd(a: u64, b: u64): u64 {
    Cap(a + b)
  }

  // ---------------------------------------------------------------- prices and costs

  datatype Pricing = Pricing(input: real, output: real, cacheRead: Option<real>, cacheWrite: Option<real>)

  datatype Usage = Usage(input: u64, output: u64, cacheCreation: u64, cacheRead: u64, reasoning: u64)

  predicate ValidRate(rate: Option<real>) {
    rate.Some? ==> rate.value >= 0.0
  }

  predicate ValidPricing(p: Pricing) {
    p.input >= 0.0 && p.output >= 0.0 && ValidRate(p.cacheRead) && ValidRate(p.cacheWrite)
  }

  function RateOr(rate: Option<real>, fallback: real): real {
    if rate.Some? then rate.value else fallback
  }

  function Uncached(u: Usage): nat {
    if u.input >= u.cacheRead then u.input - u.cacheRead else 0
  }

  /** Rates are per million tokens, so this is the price in micro-dollars. */
  function Price(tokens: nat, rate: real): real {
    tokens as real * rate
  }

  function ExactCost(p: Pricing, u: Usage): real {
    Price(Uncached(u), p.input) + Price(u.output, p.output)
    + Price(u.cacheRead, RateOr(p.cacheRead, p.input))
    + Price(u.cacheCreation, RateOr(p.cacheWrite, p.input))
  }

  function Ceil(x: real): int {
    if x.Floor as real == x then x.Floor else x.Floor + 1
  }

  datatype BudgetError =
    | UnknownPricing
    | InvalidCost
    | Exceeded(resource: Resource, limit: nat, requestedTotal: nat)
    | WallTimeExceeded
    | InvalidReservation
    | InvalidConfiguration

  /** The range check compares against the float nearest to the maximum, which is one above it. */
  function CostMicroUsd(p: Pricing, u: Usage): Result<u64, BudgetError> {
    if !ValidPricing(p) then Err(InvalidCost)
    else
      var micro := Ceil(ExactCost(p, u));
      if micro > MAX + 1 || micro < 0 then Err(InvalidCost) else Ok(Cap(micro))
  }

  // ---------------------------------------------------------------- the ledger

  datatype Resource = Calls | Input | Output | Cost

  datatype Amounts = Amounts(calls: u64, input: u64, output: u64, cost: u64) {
    function Of(r: Resource): u64 {
      match r
      case Calls => calls
      case Input => input
      case Output => output
      case Cost => cost
    }
  }

  const ZERO := Amounts(0, 0, 0, 0)

  function AddAmounts(a: Amounts, b: Amounts): Amounts {
    Amounts(SatAdd(a.calls, b.calls), SatAdd(a.input, b.input), SatAdd(a.output, b.output), SatAdd(a.cost, b.cost))
  }

  datatype Limits = Limits(calls: Option<u64>, input: Option<u64>, output: Option<u64>, cost: Option<u64>) {
    function Of(r: Resource): Option<u64> {
      match r
      case Calls => calls
      case Input => input
      case Output => output
      case Cost => cost
    }
  }

  datatype ReservationState = Reserved | Started | Reconciled

  /** `amounts` is the worst case of the call: one call, its estimated tokens and their cost. */
  datatype Entry = Entry(amounts: Amounts, pricing: Option<Pricing>, state: ReservationState)

  datatype Ledger = Ledger(nextId: u64, committed: Amounts, reservations: map<nat, Entry>)

  const EMPTY := Ledger(0, ZERO, map[])

  datatype Billing = ChargeUsage | NoCharge

  function CheckLimit(limits: Limits, r: Resource, total: u64): Result<(), BudgetError> {
    match limits.Of(r)
    case None => Ok(())
    case Some(limit) => if total > limit then Err(Exceeded(r, limit, total)) else Ok(())
  }

  function CheckLimits(limits: Limits, total: Amounts): Result<(), BudgetError> {
    var _ :- CheckLimit(limits, Calls, total.calls);
    var _ :- CheckLimit(limits, Input, total.input);
    var _ :- CheckLimit(limits, Output, total.output);
    CheckLimit(limits, Cost, total.cost)
  }

  // ---------------------------------------------------------------- exact totals of live reservations

  ghost function SumOver(keys: set<nat>, amount: nat -> nat): nat {
    if keys == {} then 0
    else
      var k :| k in keys;
      amount(k) + SumOver(keys - {k}, amount)
  }

  lemma {:induction false} SumRemove(keys: set<nat>, amount: nat -> nat, k: nat)
    requires k in keys
    ensures SumOver(keys, amount) == amount(k) + SumOver(keys - {k}, amount)
    decreases keys
  {
    var j :| j in keys && SumOver(keys, amount) == amount(j) + SumOver(keys - {j}, amount);
    if j != k {
      SumRemove(keys - {j}, amount, k);
      SumRemove(keys - {k}, amount, j);
      assert keys - {j} - {k} == keys - {k} - {j};
    }
  }

  lemma {:induction false} SumAgrees(keys: set<nat>, f: nat -> nat, g: nat -> nat)
    requires forall k :: k in keys ==> f(k) == g(k)
    ensures SumOver(keys, f) == SumOver(keys, g)
    decreases keys
  {
    if keys != {} {
      var k :| k in keys;
      SumRemove(keys, f, k);
      SumRemove(keys, g, k);
      SumAgrees(keys - {k}, f, g);
    }
  }

  function AmountOf(entries: map<nat, Entry>, r: Resource): nat -> nat {
    id => if id in entries then entries[id].amounts.Of(r) else 0
  }

  /** The true total, in exact integers, of what live reservations hold of a resource. */
  ghost function Live(entries: map<nat, Entry>, r: Resource): nat {
    SumOver(entries.Keys, AmountOf(entries, r))
  }

  lemma LiveAfterRemove(entries: map<nat, Entry>, id: nat, r: Resource)
    requires id in entries
    ensures Live(entries, r) == entries[id].amounts.Of(r) + Live(entries - {id}, r)
  {
    var rest := entries - {id};
    SumRemove(entries.Keys, AmountOf(entries, r), id);
    assert rest.Keys == entries.Keys - {id};
    SumAgrees(rest.Keys, AmountOf(entries, r), AmountOf(rest, r));
  }

  lemma LiveAfterInsert(entries: map<nat, Entry>, id: nat, entry: Entry, r: Resource)
    requires id !in entries
    ensures Live(entries[id := entry], r) == entry.amounts.Of(r) + Live(entries, r)
  {
    LiveAfterRemove(entries[id := entry], id, r);
    assert entries[id := entry] - {id} == entries;
  }

  lemma LiveAfterRestate(entries: map<nat, Entry>, id: nat, entry: Entry, r: Resource)
    requires id in entries && entry.amounts == entries[id].amounts
    ensures Live(entries[id := entry], r) == Live(entries, r)
  {
    assert entries[id := entry].Keys == entries.Keys;
    SumAgrees(entries.Keys, AmountOf(entries, r), AmountOf(entries[id := entry], r));
  }

  // ---------------------------------------------------------------- saturating totals

  ghost function CappedLive(entries: map<nat, Entry>): Amounts {
    Amounts(Cap(Live(entries, Calls)), Cap(Live(entries, Input)), Cap(Live(entries, Output)), Cap(Live(entries, Cost)))
  }

  /** `totals` has absorbed exactly the reservations that are no longer in `rest`. */
  ghost predicate Absorbed(totals: Amounts, entries: map<nat, Entry>, rest: map<nat, Entry>, r: Resource) {
    Live(rest, r) <= Live(entries, r) && totals.Of(r) == Cap(Live(entries, r) - Live(rest, r))
  }

  lemma AbsorbOne(totals: Amounts, entries: map<nat, Entry>, rest: map<nat, Entry>, id: nat, r: Resource)
    requires Absorbed(totals, entries, rest, r) && id in rest
    ensures Absorbed(AddAmounts(totals, rest[id].amounts), entries, rest - {id}, r)
  {
    LiveAfterRemove(rest, id, r);
    assert AddAmounts(totals, rest[id].amounts).Of(r) == SatAdd(totals.Of(r), rest[id].amounts.Of(r));
  }

  /**
   Folding the live reservations with saturating additions, in whatever order the table yields
   them, gives exactly the true total capped at the maximum.
   */
  method ReservationTotals(entries: map<nat, Entry>) returns (totals: Amounts)
    ensures totals == CappedLive(entries)
  {
    hide Live, AddAmounts;
    totals := ZERO;
    var rest := entries;
    while rest != map[]
      invariant Absorbed(totals, entries, rest, Calls) && Absorbed(totals, entries, rest, Input)
      invariant Absorbed(totals, entries, rest, Output) && Absorbed(totals, entries, rest, Cost)
      decreases |rest|
    {
      var id :| id in rest;
      AbsorbOne(totals, entries, rest, id, Calls);
      AbsorbOne(totals, entries, rest, id, Input);
      AbsorbOne(totals, entries, rest, id, Output);
      AbsorbOne(totals, entries, rest, id, Cost);
      totals := AddAmounts(totals, rest[id].amounts);
      rest := rest - {id};
    }
    NothingLive(Calls);
    NothingLive(Input);
    NothingLive(Output);
    NothingLive(Cost);
  }

  lemma NothingLive(r: Resource)
    ensures Live(map[], r) == 0
  {
  }

  /**
   A limit check made with saturating additions accepts exactly when the true total fits, except
   that a limit equal to the maximum accepts everything.
   */
  lemma SaturatingCheckIsExact(committed: u64, live: nat, requested: u64, limit: u64)
    ensures SatAdd(SatAdd(committed, Cap(live)), requested) <= limit
            <==> committed + live + requested <= limit || limit == MAX
  {
  }

  // ---------------------------------------------------------------- operations

  /** What the reservation would bring the ledger to, as the limit checks see it. */
  ghost function Requested(l: Ledger, amounts: Amounts): Amounts {
    AddAmounts(AddAmounts(l.committed, CappedLive(l.reservations)), amounts)
  }

  function ReservedCost(limits: Limits, pricing: Option<Pricing>, input: u64, output: u64): Result<u64, BudgetError> {
    match pricing
    case None => if limits.cost.Some? then Err(UnknownPricing) else Ok(0)
    case Some(p) => CostMicroUsd(p, Usage(input, output, 0, 0, 0))
  }

  ghost function Reserve(l: Ledger, limits: Limits, late: bool, pricing: Option<Pricing>, input: u64, output: u64)
    : Result<(Ledger, nat), BudgetError>
  {
    if late then Err(WallTimeExceeded)
    else
      var cost :- ReservedCost(limits, pricing, input, output);
      var amounts := Amounts(1, input, output, cost);
      var _ :- CheckLimits(limits, Requested(l, amounts));
      var id := SatAdd(l.nextId, 1);
      Ok((l.(nextId := id, reservations := l.reservations[id := Entry(amounts, pricing, Reserved)]), id))
  }

  /** The handle's own state mirrors the table's unless the ledger has forgotten it. */
  function StartReservation(l: Ledger, id: nat, handle: ReservationState): Result<Ledger, BudgetError> {
    if handle != Reserved || id !in l.reservations || l.reservations[id].state != Reserved then Err(InvalidReservation)
    else Ok(l.(reservations := l.reservations[id := l.reservations[id].(state := Started)]))
  }

  /** Dropping a handle releases an unstarted reservation and commits a started one in full. */
  function Drop(l: Ledger, id: nat, handle: ReservationState): Ledger {
    if handle == Reconciled || id !in l.reservations then l
    else
      var entry := l.reservations[id];
      var rest := l.reservations - {id};
      if entry.state == Started then l.(reservations := rest, committed := AddAmounts(l.committed, entry.amounts))
      else l.(reservations := rest)
  }

  function ReportedCost(entry: Entry, usage: Usage, billing: Billing): Result<u64, BudgetError> {
    if billing == NoCharge || entry.pricing.None? then Ok(0) else CostMicroUsd(entry.pricing.value, usage)
  }

  function Charged(usage: Usage, cost: u64, billing: Billing): Amounts {
    if billing == ChargeUsage then Amounts(1, usage.input, usage.output, cost) else Amounts(1, 0, 0, 0)
  }

  const NO_USAGE := Usage(0, 0, 0, 0, 0)

  /**
   Settle a started call with its reported usage. A refusal before anything was committed drops the
   handle, which commits the worst case; the limit check afterwards only reports.
   */
  function Reconcile(l: Ledger, limits: Limits, id: nat, handle: ReservationState, usage: Option<Usage>, billing: Billing)
    : (Ledger, Result<(), BudgetError>)
  {
    if handle != Started || id !in l.reservations || l.reservations[id].state != Started then
      (Drop(l, id, handle), Err(InvalidReservation))
    else
      var entry := l.reservations[id];
      var reported := if usage.Some? then usage.value else NO_USAGE;
      match ReportedCost(entry, reported, billing)
      case Err(error) => (Drop(l, id, handle), Err(error))
      case Ok(cost) =>
        var committed := AddAmounts(l.committed, Charged(reported, cost, billing));
        (l.(reservations := l.reservations - {id}, committed := committed), CheckLimits(limits, committed))
  }

  // ---------------------------------------------------------------- the shared objects

  /** The ledger's wall-clock allowance has run out; the deadline itself is already too late. */
  predicate Late(deadline: Option<nat>, now: nat) {
    deadline.Some? && now >= deadline.value
  }

  class BudgetLedger {
    const limits: Limits
    const deadline: Option<nat>
    var nextId: u64
    var committed: Amounts
    var reservations: map<nat, Entry>

    function Value(): Ledger
      reads this
    {
      Ledger(nextId, committed, reservations)
    }

    constructor (limits: Limits, deadline: Option<nat>)
      ensures this.limits == limits && this.deadline == deadline && Value() == EMPTY
    {
      this.limits, this.deadline := limits, deadline;
      nextId, committed, reservations := 0, ZERO, map[];
    }

    method ReserveModelCall(now: nat, pricing: Option<Pricing>, input: u64, output: u64)
      returns (r: Result<BudgetReservation, BudgetError>)
      modifies this
      ensures var spec := Reserve(old(Value()), limits, Late(deadline, now), pricing, input, output);
              && (spec.Err? ==> r == Err(spec.error) && Value() == old(Value()))
              && (spec.Ok? ==> r.Ok? && Value() == spec.value.0 && fresh(r.value) && r.value.owner == this
                               && r.value.id == spec.value.1 && r.value.state == Reserved)
    {
      if Late(deadline, now) {
        return Err(WallTimeExceeded);
      }
      var cost := ReservedCost(limits, pricing, input, output);
      if cost.Err? {
        return Err(cost.error);
      }
      var amounts := Amounts(1, input, output, cost.value);
      var reserved := ReservationTotals(reservations);
      var checked := CheckLimits(limits, AddAmounts(AddAmounts(committed, reserved), amounts));
      if checked.Err? {
        return Err(checked.error);
      }
      nextId := SatAdd(nextId, 1);
      reservations := reservations[nextId := Entry(amounts, pricing, Reserved)];
      var handle := new BudgetReservation(this, nextId);
      return Ok(handle);
    }

    /** The call consumes its handle; one that belongs to another ledger is refused and settles there. */
    method ReconcileCall(handle: BudgetReservation, usage: Option<Usage>, billing: Billing)
      returns (r: Result<(), BudgetError>)
      modifies this, handle, handle.owner
      ensures handle.owner == this ==>
                (Value(), r) == Reconcile(old(Value()), limits, handle.id, old(handle.state), usage, billing)
      ensures handle.owner != this ==>
                && Value() == old(Value()) && r == Err(InvalidReservation)
                && handle.owner.Value() == Drop(old(handle.owner.Value()), handle.id, old(handle.state))
      ensures handle.state == Reconciled || handle.state == old(handle.state)
    {
      if handle.owner != this || handle.state != Started || handle.id !in reservations || reservations[handle.id].state != Started {
        handle.Dropped();
        return Err(InvalidReservation);
      }
      var entry := reservations[handle.id];
      var reported := if usage.Some? then usage.value else NO_USAGE;
      var cost := ReportedCost(entry, reported, billing);
      if cost.Err? {
        handle.Dropped();
        return Err(cost.error);
      }
      reservations := reservations - {handle.id};
      handle.state := Reconciled;
      committed := AddAmounts(committed, Charged(reported, cost.value, billing));
      r := CheckLimits(limits, committed);
    }
  }

  /**
   A limit of zero calls is a configuration error, and so is a wall-clock allowance that goes past the
   last instant the clock can represent. Otherwise the ledger is empty and its deadline is fixed.
   */
  method NewLedger(limits: Limits, wallTimeMs: Option<u64>, started: nat, lastInstant: nat)
    returns (r: Result<BudgetLedger, BudgetError>)
    ensures r.Err? <==> limits.calls == Some(0) || (wallTimeMs.Some? && started + wallTimeMs.value > lastInstant)
    ensures r.Err? ==> r.error == InvalidConfiguration
    ensures r.Ok? ==> fresh(r.value) && r.value.limits == limits && r.value.Value() == EMPTY
    ensures r.Ok? ==> forall now: nat ::
                        Late(r.value.deadline, now) <==> wallTimeMs.Some? && now >= started + wallTimeMs.value
  {
    if limits.calls == Some(0) {
      return Err(InvalidConfiguration);
    }
    var deadline: Option<nat> := None;
    if wallTimeMs.Some? {
      if started + wallTimeMs.value > lastInstant {
        return Err(InvalidConfiguration);
      }
      deadline := Some(started + wallTimeMs.value);
    }
    var ledger := new BudgetLedger(limits, deadline);
    return Ok(ledger);
  }

  class BudgetReservation {
    const id: nat
    const owner: BudgetLedger
    var state: ReservationState

    constructor (owner: BudgetLedger, id: nat)
      ensures this.owner == owner && this.id == id && state == Reserved
    {
      this.owner, this.id, state := owner, id, Reserved;
    }

    method MarkStarted() returns (r: Result<(), BudgetError>)
      modifies this, owner
      ensures var spec := StartReservation(old(owner.Value()), id, old(state));
              && (spec.Ok? ==> r == Ok(()) && owner.Value() == spec.value && state == Started)
              && (spec.Err? ==> r == Err(spec.error) && owner.Value() == old(owner.Value()) && state == old(state))
    {
      if state != Reserved || id !in owner.reservations || owner.reservations[id].state != Reserved {
        return Err(InvalidReservation);
      }
      owner.reservations := owner.reservations[id := owner.reservations[id].(state := Started)];
      state := Started;
      return Ok(());
    }

    /** What the language runs when the handle goes out of scope. */
    method Dropped()
      modifies owner
      ensures owner.Value() == Drop(old(owner.Value()), id, state)
    {
      if state != Reconciled && id in owner.reservations {
        var entry := owner.reservations[id];
        owner.reservations := owner.reservations - {id};
        if entry.state == Started {
          owner.committed := AddAmounts(owner.committed, entry.amounts);
        }
      }
    }
  }
}

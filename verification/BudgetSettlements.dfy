/**
 What a call costs the budget from its reservation to its settlement: exactly what it asked for while it
 is live, all of that if it is dropped after it started, what it reports if it is reconciled.
 */
module BudgetSettlements {
  import opened Wrappers
  import opened Budget
  import opened BudgetFacts

  /** The worst case of a call: one call, the tokens asked for, and their price without cache. */
  ghost predicate IsWorstCase(pricing: Option<Pricing>, input: u64, output: u64, amounts: Amounts) {
    && amounts.calls == 1 && amounts.input == input && amounts.output == output
    && (pricing.None? ==> amounts.cost == 0)
    && (pricing.Some? ==> CostMicroUsd(pricing.value, Usage(input, output, 0, 0, 0)) == Ok(amounts.cost))
  }

  /** What a reservation takes up, in exact integers and for every resource, is the worst case of its call. */
  lemma ReservationHoldsTheWorstCase(limits: Limits, l: Ledger, late: bool, pricing: Option<Pricing>, input: u64, output: u64)
    requires SatAdd(l.nextId, 1) !in l.reservations && Reserve(l, limits, late, pricing, input, output).Ok?
    ensures var (l', id) := Reserve(l, limits, late, pricing, input, output).value;
            && id !in l.reservations && id in l'.reservations && l'.committed == l.committed
            && l'.reservations[id].state == Reserved && l'.reservations[id].pricing == pricing
            && IsWorstCase(pricing, input, output, l'.reservations[id].amounts)
            && (forall r: Resource ::
                  Live(l'.reservations, r) == Live(l.reservations, r) + l'.reservations[id].amounts.Of(r))
            && (forall other :: other in l.reservations ==> other in l'.reservations && l'.reservations[other] == l.reservations[other])
  {
    hide Live, CheckLimits, Requested, CostMicroUsd;
    var (l', id) := Reserve(l, limits, late, pricing, input, output).value;
    forall r: Resource
      ensures Live(l'.reservations, r) == Live(l.reservations, r) + l'.reservations[id].amounts.Of(r)
    {
      LiveAfterInsert(l.reservations, id, l'.reservations[id], r);
    }
  }

  // ---------------------------------------------------------------- over whole behaviours

  /** Operation `i` reserved the call that is known as `id` from then on. */
  ghost predicate ReservedAs(limits: Limits, systems: seq<System>, ops: seq<Op>, i: nat, id: nat)
    requires Behaviour(limits, systems, ops) && i < |ops|
  {
    && ops[i].ReserveOp?
    && var r := Reserve(systems[i].ledger, limits, ops[i].late, ops[i].pricing, ops[i].input, ops[i].output);
    && r.Ok? && r.value.1 == id
  }

  ghost predicate Holds(l: Ledger, id: nat, op: Op)
    requires op.ReserveOp?
  {
    id in l.reservations ==>
      l.reservations[id].pricing == op.pricing && IsWorstCase(op.pricing, op.input, op.output, l.reservations[id].amounts)
  }

  lemma StepKeepsEntry(limits: Limits, y: System, op: Op, y': System, id: nat, asked: Op)
    requires HandlesOk(y) && Next(limits, y, op, y') && asked.ReserveOp?
    requires 1 <= id <= y.ledger.nextId && Holds(y.ledger, id, asked)
    ensures id <= y'.ledger.nextId && Holds(y'.ledger, id, asked)
  {
    hide CheckLimits, Requested, CostMicroUsd, IsWorstCase;
  }

  lemma {:induction false} EntryPersists(limits: Limits, systems: seq<System>, ops: seq<Op>, i: nat, j: nat, id: nat)
    requires Behaviour(limits, systems, ops) && i < j < |systems| && ReservedAs(limits, systems, ops, i, id)
    ensures 1 <= id <= systems[j].ledger.nextId && Holds(systems[j].ledger, id, ops[i])
    decreases j - i
  {
    hide IsWorstCase, Reserve;
    assert Next(limits, systems[j - 1], ops[j - 1], systems[j]);
    LedgerIsConserved(limits, systems, ops, j - 1);
    if i == j - 1 {
      FirstHold(limits, systems[i], ops[i], systems[j], id);
    } else {
      EntryPersists(limits, systems, ops, i, j - 1, id);
      StepKeepsEntry(limits, systems[j - 1], ops[j - 1], systems[j], id, ops[i]);
    }
  }

  lemma FirstHold(limits: Limits, y: System, op: Op, y': System, id: nat)
    requires HandlesOk(y) && op.ReserveOp? && Next(limits, y, op, y')
    requires var r := Reserve(y.ledger, limits, op.late, op.pricing, op.input, op.output); r.Ok? && r.value.1 == id
    ensures 1 <= id <= y'.ledger.nextId && id in y'.ledger.reservations && Holds(y'.ledger, id, op)
  {
    hide CheckLimits, Requested, CostMicroUsd;
    assert SatAdd(y.ledger.nextId, 1) !in y.ledger.reservations by {
      IdentifierIsFreshUntilExhausted(y);
    }
    ReservationHoldsTheWorstCase(limits, y.ledger, op.late, op.pricing, op.input, op.output);
  }

  /**
   A call that is dropped settles as exactly what was asked for it if it had started, and as nothing if it
   had not, however many other calls came and went in between.
   */
  lemma DroppedCallSettlesAsRequested(limits: Limits, systems: seq<System>, ops: seq<Op>, i: nat, j: nat, id: nat)
    requires Behaviour(limits, systems, ops) && i < j < |ops|
    requires ReservedAs(limits, systems, ops, i, id) && ops[j] == DropOp(id)
    ensures id in systems[j].handles && id in systems[j + 1].settled
    ensures match systems[j + 1].settled[id]
            case Released => systems[j].handles[id] == Reserved && systems[j + 1].ledger.committed == systems[j].ledger.committed
            case WorstCase(amounts) =>
              && systems[j].handles[id] == Started && IsWorstCase(ops[i].pricing, ops[i].input, ops[i].output, amounts)
              && (forall r: Resource :: systems[j + 1].ledger.committed.Of(r) == Cap(systems[j].ledger.committed.Of(r) + amounts.Of(r)))
            case Charge(_) => false
  {
    hide IsWorstCase, Reserve, ReservedAs;
    LedgerIsConserved(limits, systems, ops, j);
    EntryPersists(limits, systems, ops, i, j, id);
    assert Next(limits, systems[j], ops[j], systems[j + 1]);
  }

  /** What a reconciled call is charged: its report and the report's price, or one call and nothing else. */
  ghost predicate IsCharge(pricing: Option<Pricing>, usage: Usage, billing: Billing, amounts: Amounts) {
    && amounts.calls == 1
    && (billing == NoCharge ==> amounts.input == 0 && amounts.output == 0 && amounts.cost == 0)
    && (billing == ChargeUsage ==>
          && amounts.input == usage.input && amounts.output == usage.output
          && (pricing.None? ==> amounts.cost == 0)
          && (pricing.Some? ==> CostMicroUsd(pricing.value, usage) == Ok(amounts.cost)))
  }

  /**
   A call that is reconciled settles as its report if it had started and the report can be priced; as
   everything that was asked for if it cannot; and as nothing if the call had not started.
   */
  lemma ReconciledCallSettlesAsReported(limits: Limits, systems: seq<System>, ops: seq<Op>, i: nat, j: nat, id: nat)
    requires Behaviour(limits, systems, ops) && i < j < |ops|
    requires ReservedAs(limits, systems, ops, i, id) && ops[j].ReconcileOp? && ops[j].id == id
    ensures id in systems[j].handles && id in systems[j + 1].settled
    ensures var pricing, usage, billing := ops[i].pricing, Usages(ops[j].usage), ops[j].billing;
            match systems[j + 1].settled[id]
            case Released => systems[j].handles[id] == Reserved
            case WorstCase(amounts) =>
              && systems[j].handles[id] == Started && IsWorstCase(pricing, ops[i].input, ops[i].output, amounts)
              && billing == ChargeUsage && pricing.Some? && CostMicroUsd(pricing.value, usage).Err?
            case Charge(amounts) =>
              && systems[j].handles[id] == Started && IsCharge(pricing, usage, billing, amounts)
              && (forall r: Resource :: systems[j + 1].ledger.committed.Of(r) == Cap(systems[j].ledger.committed.Of(r) + amounts.Of(r)))
  {
    hide IsWorstCase, Reserve, ReservedAs, CostMicroUsd, CheckLimits;
    LedgerIsConserved(limits, systems, ops, j);
    EntryPersists(limits, systems, ops, i, j, id);
    assert Next(limits, systems[j], ops[j], systems[j + 1]);
  }

  // ---------------------------------------------------------------- what the operations answer

  /** A live call can be started exactly once: its table entry is then started and nothing else changes. */
  lemma LiveCallStartsOnce(y: System, id: nat)
    requires HandlesOk(y) && id in y.handles
    ensures var r := StartReservation(y.ledger, id, y.handles[id]);
            && (r.Ok? <==> y.handles[id] == Reserved)
            && (r.Ok? ==>
                  && r.value.committed == y.ledger.committed && r.value.nextId == y.ledger.nextId
                  && r.value.reservations.Keys == y.ledger.reservations.Keys && r.value.reservations[id].state == Started
                  && r.value.reservations[id].amounts == y.ledger.reservations[id].amounts
                  && (forall other :: other in y.handles && other != id ==> r.value.reservations[other] == y.ledger.reservations[other]))
  {
  }

  lemma LimitsCheckExactly(limits: Limits, total: Amounts)
    ensures CheckLimits(limits, total).Ok? <==> forall r: Resource :: limits.Of(r).Some? ==> total.Of(r) <= limits.Of(r).value
  {
    if forall r: Resource :: limits.Of(r).Some? ==> total.Of(r) <= limits.Of(r).value {
      assert limits.Of(Calls).Some? ==> total.Of(Calls) <= limits.Of(Calls).value;
      assert limits.Of(Input).Some? ==> total.Of(Input) <= limits.Of(Input).value;
      assert limits.Of(Output).Some? ==> total.Of(Output) <= limits.Of(Output).value;
      assert limits.Of(Cost).Some? ==> total.Of(Cost) <= limits.Of(Cost).value;
    }
  }

  /**
   Reconciliation answers with success if and only if the call had started, its report can be priced, and
   what is then committed is within every limit.
   */
  lemma ReconcileAnswersExactly(limits: Limits, y: System, id: nat, usage: Option<Usage>, billing: Billing)
    requires HandlesOk(y) && id in y.handles
    ensures var (l', result) := Reconcile(y.ledger, limits, id, y.handles[id], usage, billing);
            var pricing := y.ledger.reservations[id].pricing;
            result.Ok? <==>
              && y.handles[id] == Started
              && (billing == ChargeUsage && pricing.Some? ==> CostMicroUsd(pricing.value, Usages(usage)).Ok?)
              && forall r: Resource :: limits.Of(r).Some? ==> l'.committed.Of(r) <= limits.Of(r).value
  {
    hide CostMicroUsd, AddAmounts, CheckLimits;
    LimitsCheckExactly(limits, Reconcile(y.ledger, limits, id, y.handles[id], usage, billing).0.committed);
  }
}

/**
 The budget ledger under any interleaving of its clients: every reservation settles exactly once,
 the committed counters are exactly the settlements, and honest clients never overspend.
 */
module BudgetFacts {
  import opened Wrappers
  import opened Budget

  /** How a reservation left the ledger. */
  datatype Settlement = Released | WorstCase(amounts: Amounts) | Charge(amounts: Amounts)

  /** The ledger, the handles still held by callers, and the settlements so far. */
  datatype System = System(ledger: Ledger, handles: map<nat, ReservationState>, settled: map<nat, Settlement>)

  datatype Op =
    | ReserveOp(late: bool, pricing: Option<Pricing>, input: u64, output: u64)
    | StartOp(id: nat)
    | DropOp(id: nat)
    | ReconcileOp(id: nat, usage: Option<Usage>, billing: Billing)

  function Usages(usage: Option<Usage>): Usage {
    if usage.Some? then usage.value else NO_USAGE
  }

  /** The settlement of a handle that is dropped, or reconciled without success. */
  function DropSettlement(l: Ledger, id: nat): Settlement
    requires id in l.reservations
  {
    if l.reservations[id].state == Started then WorstCase(l.reservations[id].amounts) else Released
  }

  function ReconcileSettlement(l: Ledger, id: nat, usage: Option<Usage>, billing: Billing): Settlement
    requires id in l.reservations
  {
    var entry := l.reservations[id];
    if entry.state != Started then Released
    else
      match ReportedCost(entry, Usages(usage), billing)
      case Err(_) => WorstCase(entry.amounts)
      case Ok(cost) => Charge(Charged(Usages(usage), cost, billing))
  }

  ghost predicate Next(limits: Limits, y: System, op: Op, y': System) {
    match op
    case ReserveOp(late, pricing, input, output) =>
      && y.ledger.nextId < MAX
      && (match Reserve(y.ledger, limits, late, pricing, input, output)
          case Ok((ledger, id)) => y' == y.(ledger := ledger, handles := y.handles[id := Reserved])
          case Err(_) => y' == y)
    case StartOp(id) =>
      && id in y.handles
      && (match StartReservation(y.ledger, id, y.handles[id])
          case Ok(ledger) => y' == y.(ledger := ledger, handles := y.handles[id := Started])
          case Err(_) => y' == y)
    case DropOp(id) =>
      && id in y.handles && id in y.ledger.reservations
      && y' == System(Drop(y.ledger, id, y.handles[id]), y.handles - {id},
                      y.settled[id := DropSettlement(y.ledger, id)])
    case ReconcileOp(id, usage, billing) =>
      && id in y.handles && id in y.ledger.reservations
      && y' == System(Reconcile(y.ledger, limits, id, y.handles[id], usage, billing).0, y.handles - {id},
                      y.settled[id := ReconcileSettlement(y.ledger, id, usage, billing)])
  }

  ghost predicate Behaviour(limits: Limits, systems: seq<System>, ops: seq<Op>) {
    && |systems| == |ops| + 1
    && systems[0] == System(EMPTY, map[], map[])
    && forall i :: 0 <= i < |ops| ==> Next(limits, systems[i], ops[i], systems[i + 1])
  }

  // ---------------------------------------------------------------- conservation

  function SettledAmount(s: Settlement, r: Resource): nat {
    match s
    case Released => 0
    case WorstCase(amounts) => amounts.Of(r)
    case Charge(amounts) => amounts.Of(r)
  }

  function SettledBy(settled: map<nat, Settlement>, r: Resource): nat -> nat {
    id => if id in settled then SettledAmount(settled[id], r) else 0
  }

  ghost function TotalSettled(settled: map<nat, Settlement>, r: Resource): nat {
    SumOver(settled.Keys, SettledBy(settled, r))
  }

  lemma SettleOneMore(settled: map<nat, Settlement>, id: nat, s: Settlement, r: Resource)
    requires id !in settled
    ensures TotalSettled(settled[id := s], r) == SettledAmount(s, r) + TotalSettled(settled, r)
  {
    var more := settled[id := s];
    SumRemove(more.Keys, SettledBy(more, r), id);
    assert more.Keys - {id} == settled.Keys;
    SumAgrees(settled.Keys, SettledBy(more, r), SettledBy(settled, r));
  }

  /** Handles and table agree, and every identifier ever issued is live or settled, never both. */
  ghost predicate HandlesOk(y: System) {
    && y.handles.Keys == y.ledger.reservations.Keys
    && (forall id :: id in y.handles ==>
          y.handles[id] == y.ledger.reservations[id].state && y.handles[id] != Reconciled)
    && (forall id :: id in y.settled ==> id !in y.handles)
    && (forall id: nat :: 1 <= id <= y.ledger.nextId <==> id in y.handles || id in y.settled)
  }

  /** The committed counters are the settlements, saturated. */
  ghost predicate Conserved(y: System) {
    forall r: Resource :: y.ledger.committed.Of(r) == Cap(TotalSettled(y.settled, r))
  }

  lemma CommitSettlement(committed: Amounts, settled: map<nat, Settlement>, id: nat, amounts: Amounts, s: Settlement, r: Resource)
    requires committed.Of(r) == Cap(TotalSettled(settled, r)) && id !in settled
    requires s == WorstCase(amounts) || s == Charge(amounts)
    ensures AddAmounts(committed, amounts).Of(r) == Cap(TotalSettled(settled[id := s], r))
  {
    SettleOneMore(settled, id, s, r);
  }

  lemma SettlementConserves(limits: Limits, y: System, op: Op, y': System, r: Resource)
    requires HandlesOk(y) && Conserved(y) && Next(limits, y, op, y') && (op.DropOp? || op.ReconcileOp?)
    ensures y'.ledger.committed.Of(r) == Cap(TotalSettled(y'.settled, r))
  {
    var id := op.id;
    var s := y'.settled[id];
    var entry := y.ledger.reservations[id];
    assert y.ledger.committed.Of(r) == Cap(TotalSettled(y.settled, r));
    match s
    case Released => SettleOneMore(y.settled, id, s, r);
    case WorstCase(amounts) => CommitSettlement(y.ledger.committed, y.settled, id, amounts, s, r);
    case Charge(amounts) => CommitSettlement(y.ledger.committed, y.settled, id, amounts, s, r);
  }

  lemma NextKeepsHandles(limits: Limits, y: System, op: Op, y': System)
    requires HandlesOk(y) && Next(limits, y, op, y')
    ensures HandlesOk(y')
    ensures y.settled.Keys <= y'.settled.Keys && forall id :: id in y.settled ==> y'.settled[id] == y.settled[id]
  {
    hide CostMicroUsd, AddAmounts, CheckLimits, Requested;
  }

  lemma NextConserves(limits: Limits, y: System, op: Op, y': System)
    requires HandlesOk(y) && Conserved(y) && Next(limits, y, op, y')
    ensures HandlesOk(y') && Conserved(y')
    ensures y.settled.Keys <= y'.settled.Keys && forall id :: id in y.settled ==> y'.settled[id] == y.settled[id]
  {
    hide CostMicroUsd, AddAmounts, CheckLimits, Requested, TotalSettled, HandlesOk;
    NextKeepsHandles(limits, y, op, y');
    if op.DropOp? || op.ReconcileOp? {
      forall r: Resource
        ensures y'.ledger.committed.Of(r) == Cap(TotalSettled(y'.settled, r))
      {
        SettlementConserves(limits, y, op, y', r);
      }
    }
  }

  /**
   Conservation: in every behaviour, each identifier issued so far is either live or has exactly one
   settlement, and the committed counters are the saturated sums of the settlements, whether or not
   a reconciliation reported an overrun after committing.
   */
  lemma {:induction false} LedgerIsConserved(limits: Limits, systems: seq<System>, ops: seq<Op>, i: nat)
    requires Behaviour(limits, systems, ops) && i < |systems|
    ensures HandlesOk(systems[i]) && Conserved(systems[i])
    decreases i
  {
    hide Next;
    if i > 0 {
      LedgerIsConserved(limits, systems, ops, i - 1);
      NextConserves(limits, systems[i - 1], ops[i - 1], systems[i]);
    }
  }

  /** A settlement is final: the reservation never becomes live again and never settles differently. */
  lemma {:induction false} SettlementIsFinal(limits: Limits, systems: seq<System>, ops: seq<Op>, i: nat, j: nat, id: nat)
    requires Behaviour(limits, systems, ops) && i <= j < |systems| && id in systems[i].settled
    ensures id in systems[j].settled && systems[j].settled[id] == systems[i].settled[id]
    ensures id !in systems[j].ledger.reservations && id !in systems[j].handles
    decreases j - i
  {
    hide Next, Conserved;
    LedgerIsConserved(limits, systems, ops, j);
    if i < j {
      SettlementIsFinal(limits, systems, ops, i, j - 1, id);
      LedgerIsConserved(limits, systems, ops, j - 1);
      NextConserves(limits, systems[j - 1], ops[j - 1], systems[j]);
    }
  }

  // ---------------------------------------------------------------- safety

  /** In exact integers, what is committed plus what is reserved fits every limit below the maximum. */
  ghost predicate WithinLimit(limits: Limits, l: Ledger, r: Resource) {
    limits.Of(r).Some? && limits.Of(r).value < MAX ==>
      l.committed.Of(r) + Live(l.reservations, r) <= limits.Of(r).value
  }

  ghost predicate Safe(limits: Limits, l: Ledger) {
    forall r: Resource :: WithinLimit(limits, l, r)
  }

  /** The provider reports no more than was reserved for the call. */
  predicate Honest(y: System, op: Op) {
    op.ReconcileOp? && op.id in y.ledger.reservations && ReconcileSettlement(y.ledger, op.id, op.usage, op.billing).Charge? ==>
      var charged := ReconcileSettlement(y.ledger, op.id, op.usage, op.billing).amounts;
      var reserved := y.ledger.reservations[op.id].amounts;
      charged.calls <= reserved.calls && charged.input <= reserved.input && charged.output <= reserved.output
      && charged.cost <= reserved.cost
  }

  lemma RequestedOf(l: Ledger, amounts: Amounts, r: Resource)
    ensures Requested(l, amounts).Of(r) == SatAdd(SatAdd(l.committed.Of(r), Cap(Live(l.reservations, r))), amounts.Of(r))
  {
    hide Live, Cap;
  }

  lemma EveryLimitIsChecked(limits: Limits, total: Amounts, r: Resource)
    requires CheckLimits(limits, total).Ok? && limits.Of(r).Some?
    ensures total.Of(r) <= limits.Of(r).value
  {
  }

  /** In exact integers, the request fits what the limit leaves, or the limit is the maximum and limits nothing. */
  ghost predicate Fits(limits: Limits, l: Ledger, amounts: Amounts, r: Resource) {
    limits.Of(r).Some? && limits.Of(r).value < MAX ==>
      l.committed.Of(r) + Live(l.reservations, r) + amounts.Of(r) <= limits.Of(r).value
  }

  lemma LimitAcceptsExactly(limits: Limits, l: Ledger, amounts: Amounts, r: Resource)
    ensures CheckLimit(limits, r, Requested(l, amounts).Of(r)).Ok? <==> Fits(limits, l, amounts, r)
  {
    hide Live, Cap, SatAdd;
    RequestedOf(l, amounts, r);
    if limits.Of(r).Some? {
      SaturatingCheckIsExact(l.committed.Of(r), Live(l.reservations, r), amounts.Of(r), limits.Of(r).value);
    }
  }

  /**
   Admission is exact: a call is reserved if and only if the deadline has not passed, its cost can be
   computed, and the true totals of every limited resource, however large, leave room for it.
   */
  lemma ReserveAcceptsExactly(limits: Limits, l: Ledger, late: bool, pricing: Option<Pricing>, input: u64, output: u64)
    ensures Reserve(l, limits, late, pricing, input, output).Ok? <==>
              && !late
              && ReservedCost(limits, pricing, input, output).Ok?
              && forall r: Resource :: Fits(limits, l, Amounts(1, input, output, ReservedCost(limits, pricing, input, output).value), r)
  {
    hide Live, Requested, ReservedCost, Fits;
    if ReservedCost(limits, pricing, input, output).Ok? {
      var amounts := Amounts(1, input, output, ReservedCost(limits, pricing, input, output).value);
      forall r: Resource
        ensures CheckLimit(limits, r, Requested(l, amounts).Of(r)).Ok? <==> Fits(limits, l, amounts, r)
      {
        LimitAcceptsExactly(limits, l, amounts, r);
      }
      var total := Requested(l, amounts);
      assert CheckLimit(limits, Calls, total.Of(Calls)).Ok? == Fits(limits, l, amounts, Calls);
      assert CheckLimit(limits, Input, total.Of(Input)).Ok? == Fits(limits, l, amounts, Input);
      assert CheckLimit(limits, Output, total.Of(Output)).Ok? == Fits(limits, l, amounts, Output);
      assert CheckLimit(limits, Cost, total.Of(Cost)).Ok? == Fits(limits, l, amounts, Cost);
    }
  }

  /** The other side: a limit at the maximum admits a call although the maximum is already committed. */
  lemma MaximumLimitsNothing()
    ensures var full := Ledger(0, Amounts(MAX, MAX, MAX, MAX), map[]);
            var limits := Limits(Some(MAX), Some(MAX), Some(MAX), None);
            && Reserve(full, limits, false, None, 1, 1).Ok?
            && full.committed.calls + Live(full.reservations, Calls) + 1 > limits.calls.value
  {
    var full := Ledger(0, Amounts(MAX, MAX, MAX, MAX), map[]);
    ReserveAcceptsExactly(Limits(Some(MAX), Some(MAX), Some(MAX), None), full, false, None, 1, 1);
    NothingLive(Calls);
  }

  /**
   Identifiers saturate with the counter: a reservation displaces a live one exactly when the counter
   has reached its maximum and the last identifier issued is still live.
   */
  lemma IdentifierIsFreshUntilExhausted(y: System)
    requires HandlesOk(y)
    ensures SatAdd(y.ledger.nextId, 1) in y.ledger.reservations <==>
              y.ledger.nextId == MAX && MAX in y.ledger.reservations
  {
    var id := SatAdd(y.ledger.nextId, 1);
    if y.ledger.nextId < MAX {
      assert !(1 <= id <= y.ledger.nextId);
    }
  }

  lemma ReserveIsSafe(limits: Limits, l: Ledger, late: bool, pricing: Option<Pricing>, input: u64, output: u64, r: Resource)
    requires l.nextId < MAX && WithinLimit(limits, l, r) && SatAdd(l.nextId, 1) !in l.reservations
    requires Reserve(l, limits, late, pricing, input, output).Ok?
    ensures WithinLimit(limits, Reserve(l, limits, late, pricing, input, output).value.0, r)
  {
    hide Live, Requested, CheckLimits, ReservedCost, SatAdd, Cap;
    var amounts := Amounts(1, input, output, ReservedCost(limits, pricing, input, output).value);
    LiveAfterInsert(l.reservations, SatAdd(l.nextId, 1), Entry(amounts, pricing, Reserved), r);
    if limits.Of(r).Some? {
      EveryLimitIsChecked(limits, Requested(l, amounts), r);
      RequestedOf(l, amounts, r);
      SaturatingCheckIsExact(l.committed.Of(r), Live(l.reservations, r), amounts.Of(r), limits.Of(r).value);
    }
  }

  lemma SettlementIsSafe(limits: Limits, y: System, op: Op, y': System, r: Resource)
    requires HandlesOk(y) && WithinLimit(limits, y.ledger, r) && Honest(y, op)
    requires Next(limits, y, op, y') && (op.DropOp? || op.ReconcileOp?)
    ensures WithinLimit(limits, y'.ledger, r)
  {
    hide Live;
    LiveAfterRemove(y.ledger.reservations, op.id, r);
  }

  lemma NextIsSafe(limits: Limits, y: System, op: Op, y': System, r: Resource)
    requires HandlesOk(y) && WithinLimit(limits, y.ledger, r) && Honest(y, op) && Next(limits, y, op, y')
    ensures WithinLimit(limits, y'.ledger, r)
  {
    hide Live;
    match op
    case ReserveOp(late, pricing, input, output) =>
      if Reserve(y.ledger, limits, late, pricing, input, output).Ok? {
        ReserveIsSafe(limits, y.ledger, late, pricing, input, output, r);
      }
    case StartOp(id) =>
      if y' != y {
        LiveAfterRestate(y.ledger.reservations, id, y.ledger.reservations[id].(state := Started), r);
      }
    case _ => SettlementIsSafe(limits, y, op, y', r);
  }

  lemma EmptyIsSafe(limits: Limits)
    ensures Safe(limits, EMPTY)
  {
    forall r: Resource
      ensures WithinLimit(limits, EMPTY, r)
    {
      NothingLive(r);
    }
  }

  /**
   Budget safety: from any interleaving of reserve, start, drop and honest reconcile, committed plus
   live reserved capacity stays within every configured limit below the 64-bit maximum.
   */
  lemma {:induction false} HonestClientsStayWithinLimits(limits: Limits, systems: seq<System>, ops: seq<Op>, i: nat)
    requires Behaviour(limits, systems, ops) && i < |systems|
    requires forall k :: 0 <= k < |ops| ==> Honest(systems[k], ops[k])
    ensures Safe(limits, systems[i].ledger)
    decreases i
  {
    hide Next, Honest, WithinLimit;
    if i == 0 {
      EmptyIsSafe(limits);
    } else {
      HonestClientsStayWithinLimits(limits, systems, ops, i - 1);
      LedgerIsConserved(limits, systems, ops, i - 1);
      forall r: Resource
        ensures WithinLimit(limits, systems[i].ledger, r)
      {
        assert WithinLimit(limits, systems[i - 1].ledger, r);
        NextIsSafe(limits, systems[i - 1], ops[i - 1], systems[i], r);
      }
    }
  }

  /** With honest clients, reconciliation never reports that a limit was exceeded. */
  lemma HonestReconcileNeverExceeds(limits: Limits, systems: seq<System>, ops: seq<Op>, i: nat)
    requires Behaviour(limits, systems, ops) && i < |ops| && ops[i].ReconcileOp?
    requires forall k :: 0 <= k < |ops| ==> Honest(systems[k], ops[k])
    ensures ops[i].id in systems[i].handles
    ensures var y, op := systems[i], ops[i];
            var result := Reconcile(y.ledger, limits, op.id, y.handles[op.id], op.usage, op.billing).1;
            result.Err? ==> !result.error.Exceeded?
  {
    var y, op := systems[i], ops[i];
    HonestClientsStayWithinLimits(limits, systems, ops, i + 1);
    assert Next(limits, y, op, systems[i + 1]);
    var l := systems[i + 1].ledger;
    forall r: Resource
      ensures CheckLimit(limits, r, l.committed.Of(r)).Ok?
    {
      assert WithinLimit(limits, l, r);
    }
    assert CheckLimit(limits, Calls, l.committed.Of(Calls)).Ok? && CheckLimit(limits, Input, l.committed.Of(Input)).Ok?;
    assert CheckLimit(limits, Output, l.committed.Of(Output)).Ok? && CheckLimit(limits, Cost, l.committed.Of(Cost)).Ok?;
  }
}

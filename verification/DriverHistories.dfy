/**
 When the reserved audit activities are written only through drivers, every run a store ever holds is a
 sequence of committed commands, so what holds of every command sequence holds of every persisted
 state, through every crash. Any other client may write everything else: approvals, leases, pauses,
 checkpoints, the end of a run, and whole ordinary activities.
 */
module DriverHistories {
  import opened Wrappers
  import opened RunLog
  import opened RunInvariants
  import opened AttemptHistory
  import opened RunCommands
  import opened TerminalProtocol
  import opened Disposition
  import opened DispositionFacts
  import opened DispositionTotality
  import opened PairAtomicity
  import opened DurableStore
  import opened Driver
  import opened Approver
  import opened Coordination

  /** `s` is a fresh run followed by committed commands, all of them permitted by `may`. */
  ghost predicate Written(s: RunState, may: Command -> bool) {
    exists origin, commands :: WrittenFrom(s, may, origin, commands)
  }

  ghost predicate WrittenFrom(s: RunState, may: Command -> bool, origin: RunState, commands: seq<Command>) {
    && Valid(origin) && |origin.events| == 1
    && (forall i :: 0 <= i < |commands| ==> may(commands[i]))
    && Commit(origin, commands) == Ok(s)
  }

  ghost predicate Produces(local: RunState, candidate: RunState, may: Command -> bool) {
    exists c :: may(c) && Mutate(local, c).Ok? && Mutate(local, c).value.0 == candidate
  }

  /**
   Drivers use only permitted commands, and whoever else writes, under whatever authority and on whatever
   path, stays outside the audit protocol and uses an attempt's identity only for that attempt. A run
   enters the store as such commands could have left it.
   */
  ghost predicate ThroughDrivers(w: World, step: Action, may: Command -> bool) {
    match step
    case ForeignSwap(_, replacement, _, _) =>
      replacement.runId in w.runs ==> HostOnly(w.runs[replacement.runId], replacement)
    case CreateRun(state) => Written(state, may)
    case Join(_, state) => state.runId !in w.runs ==> Written(state, may)
    case Begin(_, _, command, _) => may(command)
    case _ => true
  }

  /** `t` goes on from `s` by events any client may write. */
  predicate HostOnly(s: RunState, t: RunState) {
    forall i :: |s.events| <= i < |t.events| ==> OutsideProtocol(t.events[i].kind) && IdFits(t.events[i].id, t.events[i].kind)
  }

  /** The events of other clients are permitted. */
  ghost predicate AdmitsHosts(may: Command -> bool) {
    forall id, kind :: may(HostEvent(id, kind))
  }

  ghost predicate History(worlds: seq<World>, steps: seq<Action>, may: Command -> bool) {
    && Behaviour(worlds, steps)
    && forall i :: 0 <= i < |steps| ==> ThroughDrivers(worlds[i], steps[i], may)
  }

  ghost predicate AllWritten(w: World, may: Command -> bool) {
    && (forall id :: id in w.runs ==> Written(w.runs[id], may))
    && (forall d :: d in w.agents && w.agents[d].pending.Some? ==>
          Produces(w.agents[d].core.local, w.agents[d].pending.value, may))
  }

  /** A new run may always enter the store. */
  lemma FreshIsWritten(sessionId: string, runId: string, mode: Mode, may: Command -> bool)
    requires NewRun(sessionId, runId, mode).Ok?
    ensures Written(NewRun(sessionId, runId, mode).value, may)
  {
    NewRunValid(sessionId, runId, mode);
    var s := NewRun(sessionId, runId, mode).value;
    assert WrittenFrom(s, may, s, []);
  }

  // ---------------------------------------------------------------- other clients' events as commands

  /** The commands that commit the events of `log` from position `n` on, one by one. */
  function HostEvents(log: seq<Event>, n: nat): seq<Command>
    requires n <= |log|
  {
    if |log| == n then [] else HostEvents(log[..|log| - 1], n) + [HostEvent(log[|log| - 1].id, log[|log| - 1].kind)]
  }

  lemma {:induction false} HostEventsAreAdmitted(log: seq<Event>, n: nat, may: Command -> bool)
    requires n <= |log| && AdmitsHosts(may)
    ensures forall i :: 0 <= i < |HostEvents(log, n)| ==> may(HostEvents(log, n)[i])
    decreases |log|
  {
    if |log| > n {
      HostEventsAreAdmitted(log[..|log| - 1], n, may);
    }
  }

  lemma LastHostEventIsCommitted(t: RunState)
    requires Valid(t) && |t.events| > 1
    requires var last := t.events[|t.events| - 1]; OutsideProtocol(last.kind) && IdFits(last.id, last.kind)
    ensures var last := t.events[|t.events| - 1];
            Mutate(Prior(t), HostEvent(last.id, last.kind)) == Ok((t, Done))
  {
    hide Apply;
    assert t.events == Prior(t).events + [t.events[|t.events| - 1]];
  }

  /** A valid continuation by such events is exactly what committing them one by one gives. */
  lemma {:induction false} HostContinuationIsCommitted(s: RunState, t: RunState)
    requires Valid(s) && Valid(t) && Extends(t, s) && HostOnly(s, t)
    ensures Commit(s, HostEvents(t.events, |s.events|)) == Ok(t)
    decreases |t.events|
  {
    hide Mutate, Valid, OutsideProtocol, IdFits;
    if |t.events| == |s.events| {
      EqualLengthExtensionIsEqual(t, s);
    } else {
      ValidSequences(s);
      var prior := Prior(t);
      assert forall i :: 0 <= i < |prior.events| ==> prior.events[i] == t.events[i];
      HostContinuationIsCommitted(s, prior);
      LastHostEventIsCommitted(t);
      var commands := HostEvents(t.events, |s.events|);
      assert commands[..|commands| - 1] == HostEvents(prior.events, |s.events|);
    }
  }

  /** Committing two batches is committing the second after the first. */
  lemma {:induction false} CommitInTwoBatches(s: RunState, first: seq<Command>, second: seq<Command>)
    requires Commit(s, first).Ok?
    ensures Commit(s, first + second) == Commit(Commit(s, first).value, second)
    decreases |second|
  {
    hide Mutate;
    if second == [] {
      assert first + second == first;
    } else {
      var all := first + second;
      CommitInTwoBatches(s, first, second[..|second| - 1]);
      assert all[..|all| - 1] == first + second[..|second| - 1];
    }
  }

  lemma HostContinuationIsWritten(s: RunState, t: RunState, may: Command -> bool)
    requires Written(s, may) && Valid(s) && Valid(t) && Extends(t, s) && HostOnly(s, t) && AdmitsHosts(may)
    ensures Written(t, may)
  {
    hide Commit, Valid;
    var origin, commands :| WrittenFrom(s, may, origin, commands);
    var more := HostEvents(t.events, |s.events|);
    HostContinuationIsCommitted(s, t);
    CommitInTwoBatches(origin, commands, more);
    HostEventsAreAdmitted(t.events, |s.events|, may);
    assert WrittenFrom(t, may, origin, commands + more);
  }

  // ---------------------------------------------------------------- every stored run is written

  lemma CommittedIsWritten(s: RunState, t: RunState, may: Command -> bool)
    requires Written(s, may) && Produces(s, t, may)
    ensures Written(t, may)
  {
    hide Mutate;
    var origin, commands :| WrittenFrom(s, may, origin, commands);
    var c :| may(c) && Mutate(s, c).Ok? && Mutate(s, c).value.0 == t;
    assert (commands + [c])[..|commands + [c]| - 1] == commands;
    assert WrittenFrom(t, may, origin, commands + [c]);
  }

  lemma BeginProduces(w: World, step: Action, w': World, may: Command -> bool)
    requires step.Begin? && Begins(w, step, w') && may(step.command)
    requires w'.agents[step.agent].pending.Some?
    ensures Produces(w'.agents[step.agent].core.local, w'.agents[step.agent].pending.value, may)
  {
    hide Mutate;
    assert may(step.command) && Mutate(w.agents[step.agent].core.local, step.command).Ok?;
  }

  lemma ControlIsHostOnly(s: RunState, t: RunState)
    requires ControlOnly(s, t)
    ensures HostOnly(s, t)
  {
  }

  lemma ForeignSwapIsWritten(w: World, step: Action, may: Command -> bool)
    requires Invariant(w) && AllWritten(w, may) && AdmitsHosts(may) && step.ForeignSwap? && Valid(step.replacement)
    requires ThroughDrivers(w, step, may)
    requires Swap(w.runs, step.expected, step.replacement, step.authority, step.approval, w.clock).Ok?
    ensures Written(step.replacement, may)
    ensures Swap(w.runs, step.expected, step.replacement, step.authority, step.approval, w.clock).value
         == w.runs[step.replacement.runId := step.replacement]
  {
    hide Valid, Written, Validate;
    SwapGrows(w.runs, step.expected, step.replacement, step.authority, step.approval, w.clock);
    HostContinuationIsWritten(w.runs[step.replacement.runId], step.replacement, may);
  }

  lemma NextKeepsWritten(w: World, step: Action, w': World, may: Command -> bool)
    requires Invariant(w) && AllWritten(w, may) && AdmitsHosts(may)
    requires Next(w, step, w') && ThroughDrivers(w, step, may)
    ensures AllWritten(w', may)
  {
    hide Prepare, Swap, Produces, Valid, Written, DefiniteExpiry, HostOnly;
    match step
    case Begin(d, _, _, _) =>
      if w'.agents[d].pending.Some? {
        BeginProduces(w, step, w', may);
      }
    case Swapped(d, fate) =>
      if Effective(fate) {
        AcceptedSwapIsExact(w, d);
        CommittedIsWritten(w.agents[d].core.local, w.agents[d].pending.value, may);
      }
    case Govern(d, candidate, _, fate) =>
      if Effective(fate) {
        AcceptedApprovalIsExact(w, step);
        ControlIsHostOnly(w.agents[d].core.local, candidate);
        HostContinuationIsWritten(w.agents[d].core.local, candidate, may);
      }
    case ForeignSwap(expected, replacement, authority, approval) =>
      if Swap(w.runs, expected, replacement, authority, approval, w.clock).Ok? {
        ForeignSwapIsWritten(w, step, may);
      }
    case _ =>
  }

  lemma {:induction false} StoredRunsAreWritten(worlds: seq<World>, steps: seq<Action>, i: nat, may: Command -> bool)
    requires History(worlds, steps, may) && AdmitsHosts(may) && i < |worlds|
    ensures AllWritten(worlds[i], may)
    decreases i
  {
    hide Invariant, Mutate;
    if i > 0 {
      StoredRunsAreWritten(worlds, steps, i - 1, may);
      InvariantHolds(worlds, steps, i - 1);
      NextKeepsWritten(worlds[i - 1], steps[i - 1], worlds[i], may);
    }
  }

  /**
   Pair atomicity of the whole system: with the paired audit steps and no operator reconciliation of an
   audit, no persisted state, after any crash, any swap that committed and reported an error, and any
   approval, control event or ordinary activity of whichever client, has an audit completed and its
   lifecycle open.
   */
  lemma PersistedAuditsArePaired(worlds: seq<World>, steps: seq<Action>, i: nat, id: string)
    requires History(worlds, steps, PairedUse) && i < |worlds| && id in worlds[i].runs
    ensures Paired(worlds[i].runs[id].projection)
  {
    StoredRunsAreWritten(worlds, steps, i, PairedUse);
    var s := worlds[i].runs[id];
    var origin, commands :| WrittenFrom(s, PairedUse, origin, commands);
    AuditAndLifecycleCompleteTogether(origin, commands);
  }

  predicate AnyCommand(c: Command) {
    true
  }

  /**
   Terminal boundary of the whole system: in every log the store ever holds, nothing but terminal
   audits is scheduled or started after the canonical RunStopped audit.
   */
  lemma PersistedBoundaryHolds(worlds: seq<World>, steps: seq<Action>, i: nat, id: string, m: nat, n: nat)
    requires History(worlds, steps, AnyCommand) && i < |worlds| && id in worlds[i].runs
    requires m < n < |worlds[i].runs[id].events|
    requires worlds[i].runs[id].events[m].kind.ActivityScheduled?
    requires worlds[i].runs[id].events[m].kind.scheduled == CANONICAL_AUDIT
    ensures !OpensStep(worlds[i].runs[id].events[n].kind, IsOrdinary)
    ensures !OpensStep(worlds[i].runs[id].events[n].kind, IsLifecycle)
  {
    hide Commit;
    StoredRunsAreWritten(worlds, steps, i, AnyCommand);
    InvariantHolds(worlds, steps, i);
    var s := worlds[i].runs[id];
    var origin, commands :| WrittenFrom(s, AnyCommand, origin, commands);
    NoLifecycleAfterCanonical(origin, commands, m, n);
    NoOrdinaryWorkAfterCanonical(s, m, n);
  }

  /**
   Restart of the whole system: every run the store ever holds, at any moment a worker may restart, can
   be classified; classifying it leaves nothing open, and doing it again changes nothing.
   */
  lemma PersistedRunsCanBeClassified(
    worlds: seq<World>, steps: seq<Action>, i: nat, id: string, active: Option<string>, order: seq<ActivityId>)
    requires History(worlds, steps, AnyCommand) && i < |worlds| && id in worlds[i].runs
    requires Enumerates(order, worlds[i].runs[id].projection.activities)
    ensures Dispose(worlds[i].runs[id], active, order).Ok?
    ensures var t := Dispose(worlds[i].runs[id], active, order).value.0;
            && AllSettled(active, t.projection)
            && Dispose(t, active, order).Ok? && Dispose(t, active, order).value.0 == t
  {
    hide Dispose, AllSettled, Commit, Enumerates;
    StoredRunsAreWritten(worlds, steps, i, AnyCommand);
    InvariantHolds(worlds, steps, i);
    var s := worlds[i].runs[id];
    var origin, commands :| WrittenFrom(s, AnyCommand, origin, commands);
    CommittedIdsFit(origin, commands);
    DispositionNeverFails(s, active, order);
    DispositionIsComplete(s, active, order);
    DispositionIsIdempotent(s, active, order);
  }

  /**
   At most one unsafe effect per piece of evidence: a second execution permit for one
   reconcile-required activity, granted by any driver at any later time, is only ever committed
   after the store holds evidence that the first had no effect or may be repeated.
   */
  lemma SecondPermitNeedsEvidence(
    worlds: seq<World>, steps: seq<Action>, i: nat, id: string, m: nat, n: nat, a: ActivityId, first: nat, second: nat)
    requires Behaviour(worlds, steps) && i < |worlds| && id in worlds[i].runs
    requires m < n < |worlds[i].runs[id].events|
    requires worlds[i].runs[id].events[m].kind == AttemptStarted(a, first)
    requires worlds[i].runs[id].events[n].kind == AttemptStarted(a, second)
    requires a in worlds[i].runs[id].projection.activities
    requires worlds[i].runs[id].projection.activities[a].definition.sideEffects == ReconcileRequired
    ensures first < second && EvidenceBetween(worlds[i].runs[id].events, a, first, m, n)
  {
    InvariantHolds(worlds, steps, i);
    UnsafeEffectsStartAtMostOnce(worlds[i].runs[id], m, n, a, first, second);
  }

  /** The effective swap of step `i` grants permission to execute attempt `n` of `a` in run `id`. */
  ghost predicate Grants(worlds: seq<World>, steps: seq<Action>, i: nat, id: string, c: Command, a: ActivityId, n: nat)
    requires i < |steps| && i < |worlds|
  {
    && steps[i].Swapped? && Effective(steps[i].fate)
    && steps[i].agent in worlds[i].agents
    && var agent := worlds[i].agents[steps[i].agent];
    && agent.pending.Some? && agent.core.local.runId == id
    && var mutated := Mutate(agent.core.local, c);
    && mutated.Ok? && mutated.value.0 == agent.pending.value && Permits(mutated.value.1, a, n)
  }

  /** A granted permit is an attempt started by that very swap, in the log the store holds from then on. */
  lemma GrantIsStored(worlds: seq<World>, steps: seq<Action>, i: nat, id: string, c: Command, a: ActivityId, n: nat)
    returns (k: nat)
    requires Behaviour(worlds, steps) && i < |steps| && Grants(worlds, steps, i, id, c, a, n)
    ensures id in worlds[i].runs && id in worlds[i + 1].runs
    ensures |worlds[i].runs[id].events| <= k < |worlds[i + 1].runs[id].events|
    ensures worlds[i + 1].runs[id].events[k].kind == AttemptStarted(a, n)
  {
    hide Mutate, Next;
    NoLostUpdate(worlds, steps, i);
    InvariantHolds(worlds, steps, i);
    var local := worlds[i].runs[id];
    PermitIsPersisted(local, c, a, n);
    var t := Mutate(local, c).value.0;
    k :| |local.events| <= k < |t.events| && t.events[k].kind == AttemptStarted(a, n);
  }

  /** The starts of two attempts of `a`, in this order, with evidence for repeating the first in between. */
  ghost predicate SeparatedStarts(log: seq<Event>, a: ActivityId, first: nat, m: int, second: nat, n: int) {
    && 0 <= m < n < |log|
    && log[m].kind == AttemptStarted(a, first) && log[n].kind == AttemptStarted(a, second)
    && EvidenceBetween(log, a, first, m, n)
  }

  /**
   At-most-once unsafe effects, for permits as callers receive them: whichever drivers are granted
   two permits for one reconcile-required activity, whatever crashed or restarted in between, the
   stored log shows, between the two starts, that the first attempt failed without effect or was
   declared safe to retry.
   */
  lemma TwoPermitsAreSeparatedByEvidence(
    worlds: seq<World>, steps: seq<Action>, i: nat, j: nat, id: string, c: Command, d: Command,
    a: ActivityId, first: nat, second: nat)
    requires Behaviour(worlds, steps) && i < j < |steps|
    requires Grants(worlds, steps, i, id, c, a, first) && Grants(worlds, steps, j, id, d, a, second)
    requires id in worlds[j + 1].runs && a in worlds[j + 1].runs[id].projection.activities
    requires worlds[j + 1].runs[id].projection.activities[a].definition.sideEffects == ReconcileRequired
    ensures first < second
    ensures var log := worlds[j + 1].runs[id].events;
            exists m, n :: SeparatedStarts(log, a, first, m, second, n)
  {
    hide Mutate, Next, Grants, EvidenceBetween;
    var m := GrantIsStored(worlds, steps, i, id, c, a, first);
    var n := GrantIsStored(worlds, steps, j, id, d, a, second);
    RunsPersist(worlds, steps, i + 1, j);
    RunsPersist(worlds, steps, j, j + 1);
    var log := worlds[j + 1].runs[id].events;
    assert worlds[i + 1].runs[id].events <= worlds[j].runs[id].events <= log;
    assert log[m] == worlds[i + 1].runs[id].events[m];
    SecondPermitNeedsEvidence(worlds, steps, j + 1, id, m, n, a, first, second);
    assert SeparatedStarts(log, a, first, m, second, n);
  }
}

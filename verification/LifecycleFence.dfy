/**
 The invocation lifecycle as a fence: in every history whose lifecycles are opened by their own entry point,
 at most one invocation is open at a time; and what closing, failing and reconciling one leaves behind.
 */
module LifecycleFence {
  import opened Wrappers
  import opened RunLog
  import opened RunInvariants
  import opened AttemptHistory
  import opened RunOps
  import opened Disposition
  import opened DispositionFacts
  import opened RunCommands
  import opened CommandFacts
  import opened TerminalProtocol
  import opened PairAtomicity
  import opened StatusMachine
  import opened DispositionTotality
  import opened Decisions
  import opened Acceptance
  import opened Coordination
  import opened DriverHistories

  predicate OpenLifecycleIn(p: Projection, a: ActivityId) {
    a in p.activities && a.step == Lifecycle && LatestIs(p.activities[a], Running)
  }

  ghost predicate AtMostOneOpen(p: Projection) {
    forall a, b :: OpenLifecycleIn(p, a) && OpenLifecycleIn(p, b) ==> a == b
  }

  /** The event starts a lifecycle other than `x`. */
  predicate StartsAnother(kind: EventKind, x: Option<ActivityId>) {
    kind.AttemptStarted? && kind.started.step == Lifecycle && x != Some(kind.started)
  }

  lemma NoNewOpenLifecycle(runId: string, p: Projection, kind: EventKind, sequence: nat, x: Option<ActivityId>, a: ActivityId)
    requires RecordsOk(runId, p) && Apply(runId, p, kind, sequence).Ok? && !StartsAnother(kind, x)
    requires OpenLifecycleIn(Apply(runId, p, kind, sequence).value, a) && x != Some(a)
    ensures OpenLifecycleIn(p, a)
  {
    hide Apply, Explains;
    var q := Apply(runId, p, kind, sequence).value;
    assert a in p.activities ==> RecordOk(runId, a, p.activities[a]);
    if !ActivityKind(kind) {
      ControlLeavesActivities(runId, p, kind, sequence);
    } else {
      EventExplainsItsAttempt(runId, p, kind, sequence);
      if a == Subject(kind) && !kind.ActivityScheduled? {
        RunningIsStarted(kind, a, TouchedAttempt(kind), q.activities[a].attempts[TouchedAttempt(kind) - 1]);
      }
    }
  }

  lemma RunningIsStarted(kind: EventKind, a: ActivityId, n: nat, attempt: Attempt)
    requires Explains(kind, a, n, attempt)
    ensures attempt.status == Running <==> kind.AttemptStarted?
  {
  }

  lemma {:induction false} ContinuationOpensOnly(s: RunState, t: RunState, x: Option<ActivityId>, a: ActivityId)
    requires Valid(s) && Continues(s, t, kind => !StartsAnother(kind, x))
    requires OpenLifecycleIn(t.projection, a) && x != Some(a)
    ensures OpenLifecycleIn(s.projection, a)
    decreases |t.events|
  {
    hide Apply;
    if |t.events| == |s.events| {
      EqualLengthExtensionIsEqual(t, s);
    } else {
      ValidSequences(s);
      var prior := Prior(t);
      assert forall i :: 0 <= i < |prior.events| ==> prior.events[i] == t.events[i];
      ValidRecords(prior);
      NoNewOpenLifecycle(t.runId, prior.projection, t.events[|t.events| - 1].kind, |t.events|, x, a);
      ContinuationOpensOnly(s, prior, x, a);
    }
  }

  /** Lifecycles are opened by their own entry point. */
  predicate FencedUse(c: Command) {
    c.BeginActivity? ==> c.activity.step != Lifecycle
  }

  function Opening(c: Command): Option<ActivityId> {
    if c.BeginLifecycle? then Some(LifecycleOf(c.invocationId)) else None
  }

  lemma CommandOpensOnly(s: RunState, c: Command)
    requires Valid(s) && FencedUse(c) && Mutate(s, c).Ok?
    ensures Continues(s, Mutate(s, c).value.0, kind => !StartsAnother(kind, Opening(c)))
  {
    hide Mutate;
    CommandContinues(s, c);
    var t := Mutate(s, c).value.0;
    if c.CommitFailure? && c.activity.step == Lifecycle {
      FailureStartsNoLifecycle(s, c);
    } else {
      assert forall kind :: Allowed(c, kind) ==> !StartsAnother(kind, Opening(c));
      ContinuesWeaken(s, t, MayFor(c), kind => !StartsAnother(kind, Opening(c)));
    }
  }

  lemma FailureStartsNoLifecycle(s: RunState, c: Command)
    requires Valid(s) && c.CommitFailure? && c.activity.step == Lifecycle && Mutate(s, c).Ok?
    requires Continues(s, Mutate(s, c).value.0, MayFor(c))
    ensures Continues(s, Mutate(s, c).value.0, kind => !StartsAnother(kind, None))
  {
    hide FailActivity, Valid;
    FailedLifecycleStaysClosed(s, c.activity, c.attempt, c.error, c.retryable, c.effectAmbiguous);
  }

  lemma CommandKeepsFence(s: RunState, c: Command)
    requires Valid(s) && FencedUse(c) && AtMostOneOpen(s.projection) && Mutate(s, c).Ok?
    ensures AtMostOneOpen(Mutate(s, c).value.0.projection)
  {
    hide Mutate, Valid;
    CommandOpensOnly(s, c);
    var t := Mutate(s, c).value.0;
    forall a, b | OpenLifecycleIn(t.projection, a) && OpenLifecycleIn(t.projection, b)
      ensures a == b
    {
      if Opening(c) != Some(a) {
        ContinuationOpensOnly(s, t, Opening(c), a);
      }
      if Opening(c) != Some(b) {
        ContinuationOpensOnly(s, t, Opening(c), b);
      }
      if c.BeginLifecycle? {
        NothingElseIsOpen(s, c.invocationId, a);
        NothingElseIsOpen(s, c.invocationId, b);
      }
    }
  }

  lemma NothingElseIsOpen(s: RunState, invocationId: string, a: ActivityId)
    requires Mutate(s, BeginLifecycle(invocationId)).Ok?
    ensures !OpenLifecycleIn(s.projection, a)
  {
    hide PrepareActivity;
  }

  /** One invocation at a time: in every state such a history commits, at most one lifecycle is open. */
  lemma {:induction false} OneInvocationAtATime(s: RunState, commands: seq<Command>)
    requires Valid(s) && |s.events| == 1 && Commit(s, commands).Ok?
    requires forall i :: 0 <= i < |commands| ==> FencedUse(commands[i])
    ensures AtMostOneOpen(Commit(s, commands).value.projection)
    decreases |commands|
  {
    hide Mutate;
    if commands != [] {
      var earlier, c := commands[..|commands| - 1], commands[|commands| - 1];
      OneInvocationAtATime(s, earlier);
      CommitValid(s, earlier);
      CommandKeepsFence(Commit(s, earlier).value, c);
    }
  }

  /** And so in every run the store ever holds, through every crash and misreported swap, whoever else writes. */
  lemma PersistedRunsAreFenced(worlds: seq<World>, steps: seq<Action>, i: nat, id: string)
    requires History(worlds, steps, FencedUse) && i < |worlds| && id in worlds[i].runs
    ensures AtMostOneOpen(worlds[i].runs[id].projection)
  {
    hide Commit, AtMostOneOpen;
    StoredRunsAreWritten(worlds, steps, i, FencedUse);
    var s := worlds[i].runs[id];
    var origin, commands :| WrittenFrom(s, FencedUse, origin, commands);
    OneInvocationAtATime(origin, commands);
  }

  // ---------------------------------------------------------------- closing and failing

  /**
   Closing a lifecycle from the canonical receipt: it says yes if and only if the lifecycle is then closed
   with exactly the canonical replay, and it changes nothing when it says no.
   */
  lemma CloseFromCanonicalMeaning(s: RunState, a: ActivityId, n: nat)
    requires Valid(s) && MutateCloseFromCanonical(s, a, n).Ok?
    ensures var (t, outcome) := MutateCloseFromCanonical(s, a, n).value;
            && a in t.projection.activities && outcome.Flag? && Valid(t)
            && (outcome.flag ==>
                  && CANONICAL_AUDIT in s.projection.activities
                  && var canonical := s.projection.activities[CANONICAL_AUDIT];
                  && canonical.definition.input.AuditInput? && canonical.definition.input.replay.invocationId == a.key
                  && CompletedOutput(canonical) == Some(ReceiptValue(canonical.definition.input.replay.receipt))
                  && (CompletedOutput(t.projection.activities[a]) == Some(AuditClosed(canonical.definition.input.replay))
                      || CompletedOutput(t.projection.activities[a]) == Some(ReplayAuthorized(canonical.definition.input.replay))))
            && (!outcome.flag ==> t == s)
  {
    hide Valid, CompleteActivity, CompletedOutput, EnvelopeOk;
    var acts := s.projection.activities;
    if CANONICAL_AUDIT in acts && CompletedOutput(acts[CANONICAL_AUDIT]).Some? {
      CanonicalReplayReads(s);
      StoredReceiptMatchesIntent(s);
      var replay := acts[CANONICAL_AUDIT].definition.input.replay;
      if MutateCloseFromCanonical(s, a, n).value.0 != s {
        ClosureEffect(s, a, n, replay);
      } else if MutateCloseFromCanonical(s, a, n).value.1 == Flag(true) {
        ClosedEarlier(s, a, n, replay);
      }
    }
  }

  lemma ClosureEffect(s: RunState, a: ActivityId, n: nat, replay: Replay)
    requires Valid(s) && a in s.projection.activities && a.step == Lifecycle && CompleteActivity(s, a, n, AuditClosed(replay)).Ok?
    requires n == |s.projection.activities[a].attempts|
    ensures var t := CompleteActivity(s, a, n, AuditClosed(replay)).value;
            Valid(t) && a in t.projection.activities && CompletedOutput(t.projection.activities[a]) == Some(AuditClosed(replay))
  {
    hide Valid, CompleteActivity;
    CompletionEffect(s, a, n, AuditClosed(replay));
    var t := CompleteActivity(s, a, n, AuditClosed(replay)).value;
    ValidRecords(t);
    assert RecordOk(t.runId, a, t.projection.activities[a]);
  }

  lemma ClosedEarlier(s: RunState, a: ActivityId, n: nat, replay: Replay)
    requires Valid(s) && a in s.projection.activities && a.step == Lifecycle
    requires CANONICAL_AUDIT in s.projection.activities
    requires ReplayFromRecord(CANONICAL_AUDIT, s.projection.activities[CANONICAL_AUDIT], Canonical, s.runId) == Ok(replay)
    requires MutateCloseFromCanonical(s, a, n) == Ok((s, Flag(true)))
    ensures CompletedOutput(s.projection.activities[a]) == Some(AuditClosed(replay))
            || CompletedOutput(s.projection.activities[a]) == Some(ReplayAuthorized(replay))
  {
    hide Valid, CompleteActivity, EnvelopeOk, CompletedOutput;
    var closed := ReplayFromLifecycle(a, s.projection.activities[a], s.runId);
    if closed.Ok? && closed.value.None? {
      ClosureEffect(s, a, n, replay);
    }
  }

  /**
   An open lifecycle is closed as never started if and only if no terminal audit was scheduled for it and no
   attempt of any other activity started behind it.
   */
  lemma UnstartedClosesExactly(s: RunState, a: ActivityId)
    requires Sweepable(s) && a.step == Lifecycle && a in s.projection.activities && LatestIs(s.projection.activities[a], Running)
    ensures |s.projection.activities[a].attempts| == 1
    ensures MutateCloseUnstarted(s, a, 1).Ok? <==>
              && !HasAuditFor(s.projection.activities, a.key)
              && forall b, i :: b in s.projection.activities && b != a && 0 <= i < |s.projection.activities[b].attempts| ==>
                   s.projection.activities[b].attempts[i].startedSequence <= s.projection.activities[a].attempts[0].startedSequence
  {
    hide Valid, HasAuditFor, LifecycleClosureOk, OutputOk;
    ValidRecords(s);
    assert RecordOk(s.runId, a, s.projection.activities[a]);
    OutcomeIdIsFree(s, a, 1, CompletePhase);
    AppendsExactly(s, AttemptId(a, 1, CompletePhase), AttemptCompleted(a, 1, NotStarted(s.runId, a.key)));
  }

  /**
   An open lifecycle is closed with a direct replay if and only if the replay is a valid envelope of this run
   and invocation, and no terminal audit was scheduled for it.
   */
  lemma DirectClosesExactly(s: RunState, a: ActivityId, replay: Replay)
    requires Sweepable(s) && a.step == Lifecycle && a in s.projection.activities && LatestIs(s.projection.activities[a], Running)
    requires replay.kind == Direct
    ensures |s.projection.activities[a].attempts| == 1
    ensures MutateCloseWithReplay(s, a, 1, replay).Ok? <==>
              EnvelopeFits(s.runId, replay, Direct) && replay.invocationId == a.key && !HasAuditFor(s.projection.activities, a.key)
  {
    hide Valid, HasAuditFor, OutputOk, CompletedOutput;
    ValidRecords(s);
    ValidSequences(s);
    assert RecordOk(s.runId, a, s.projection.activities[a]);
    OutcomeIdIsFree(s, a, 1, CompletePhase);
    AppendsExactly(s, AttemptId(a, 1, CompletePhase), AttemptCompleted(a, 1, AuditClosed(replay)));
  }

  /** Failing the pair of a running audit and its running lifecycle always succeeds and sends both to reconciliation. */
  lemma PairFails(s: RunState, audit: ActivityId, lifecycle: ActivityId)
    requires Sweepable(s) && audit != lifecycle && audit in s.projection.activities && lifecycle in s.projection.activities
    requires IsReserved(audit, s.projection.activities[audit].definition) && LatestIs(s.projection.activities[audit], Running)
    requires IsReserved(lifecycle, s.projection.activities[lifecycle].definition) && LatestIs(s.projection.activities[lifecycle], Running)
    ensures var r := MutateFailLinked(s, audit, |s.projection.activities[audit].attempts|,
                                      lifecycle, |s.projection.activities[lifecycle].attempts|);
            && r.Ok? && r.value.1 == Done && Valid(r.value.0) && r.value.0.projection.status == ReconciliationPending
            && audit in r.value.0.projection.activities && LatestIs(r.value.0.projection.activities[audit], NeedsReconciliation)
            && lifecycle in r.value.0.projection.activities
            && LatestIs(r.value.0.projection.activities[lifecycle], NeedsReconciliation)
  {
    hide FailActivity, LatestIs, IsReserved, Valid;
    var n := |s.projection.activities[audit].attempts|;
    ReservedInterruptSucceeds(s, audit, UndeliveredRunStopped);
    InterruptReserved(s, audit, UndeliveredRunStopped);
    InterruptContinues(s, audit, n, UndeliveredRunStopped);
    var t := FailActivity(s, audit, n, UndeliveredRunStopped, false, true).value.0;
    ContinuationFits(s, t, Interrupts);
    ReservedInterruptSucceeds(t, lifecycle, UndeliveredRunStopped);
    InterruptReserved(t, lifecycle, UndeliveredRunStopped);
  }

  // ---------------------------------------------------------------- reconciling

  /** What an operator's resolution makes of the attempt it settles. */
  predicate ResolvedAs(attempt: Attempt, resolution: Resolution) {
    match resolution
    case ResolvedCompleted(output) => attempt.status == Completed && attempt.output == Some(output)
    case SafeToRetry => attempt.status == Failed && attempt.retryable && !attempt.effectAmbiguous
    case ResolvedCancelled => attempt.status == Cancelled
  }

  /**
   Reconciling an ordinary activity succeeds if and only if its last attempt awaits reconciliation and the
   identifier is valid; it settles that attempt as told, and the run pauses once nothing else is open.
   */
  lemma ReconciliationMeaning(s: RunState, id: string, a: ActivityId, resolution: Resolution)
    requires Valid(s) && a.step.Ordinary?
    requires a in s.projection.activities ==> !IdUsed(s.events, ReconciledId(a, |s.projection.activities[a].attempts|, id))
    ensures ReconcileActivity(s, id, a, resolution).Ok? <==>
              ValidIdentifier(id) && a in s.projection.activities && LatestIs(s.projection.activities[a], NeedsReconciliation)
    ensures ReconcileActivity(s, id, a, resolution).Ok? ==>
              var t := ReconcileActivity(s, id, a, resolution).value;
              && Valid(t) && a in t.projection.activities && t.projection.activities[a].attempts != []
              && ResolvedAs(t.projection.activities[a].attempts[|t.projection.activities[a].attempts| - 1], resolution)
              && (!Terminal(s.projection.status) && !HasPendingReconciliation(t.projection) ==> t.projection.status == Paused)
  {
    hide Valid, HasPendingReconciliation;
    if a in s.projection.activities && s.projection.activities[a].attempts != [] {
      var n := |s.projection.activities[a].attempts|;
      AppendsExactly(s, ReconciledId(a, n, id), ActivityReconciled(a, n, resolution));
      if ReconcileActivity(s, id, a, resolution).Ok? {
        ReconciledStatus(s.runId, s.projection, ActivityReconciled(a, n, resolution), |s.events| + 1);
      }
    }
  }
}

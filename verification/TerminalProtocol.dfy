/**
 The terminal audit protocol over whole histories: execution permits are always persisted, the
 RunStopped audit is a boundary that nothing crosses, a stop is final, and finalization is idempotent
 and honours the verdict that authorised it.
 */
module TerminalProtocol {
  import opened Wrappers
  import opened RunLog
  import opened RunInvariants
  import opened AttemptHistory
  import opened RunOps
  import opened Disposition
  import opened DispositionFacts
  import opened RunCommands
  import opened CommandFacts

  // ---------------------------------------------------------------- histories written by drivers

  /** The state after committing `commands`, in order, to `s`. */
  function Commit(s: RunState, commands: seq<Command>): Result<RunState, DriverError> {
    if commands == [] then Ok(s)
    else
      var prior :- Commit(s, commands[..|commands| - 1]);
      var next :- Mutate(prior, commands[|commands| - 1]);
      Ok(next.0)
  }

  lemma {:induction false} CommitValid(s: RunState, commands: seq<Command>)
    requires Valid(s) && Commit(s, commands).Ok?
    ensures Valid(Commit(s, commands).value) && Extends(Commit(s, commands).value, s)
  {
    if commands != [] {
      var prior := Commit(s, commands[..|commands| - 1]).value;
      CommitValid(s, commands[..|commands| - 1]);
      CommandContinues(prior, commands[|commands| - 1]);
    }
  }

  /** The state before and after each event of a valid log are one application apart. */
  lemma {:induction false} AtStep(s: RunState, n: nat)
    requires Valid(s) && 1 <= n < |s.events|
    ensures Apply(s.runId, At(s, n).projection, s.events[n].kind, n + 1) == Ok(At(s, n + 1).projection)
    decreases |s.events|
  {
    hide Apply;
    if n + 1 < |s.events| {
      AtStep(Prior(s), n);
    } else {
      assert At(s, n) == Prior(s);
    }
  }

  // ---------------------------------------------------------------- permits

  /** The attempt a caller may execute once this outcome has been committed. */
  predicate Permits(outcome: Outcome, a: ActivityId, n: nat) {
    || (outcome.Decided? && outcome.decision.Execute? && outcome.decision.activity == a && outcome.decision.attempt == n)
    || outcome == RetryStarted(a, n)
  }

  ghost predicate StartsWithin(s: RunState, t: RunState, a: ActivityId, n: nat) {
    exists i :: |s.events| <= i < |t.events| && t.events[i].kind == AttemptStarted(a, n)
  }

  lemma StartNextIsFresh(s: RunState, a: ActivityId)
    requires Valid(s) && a in s.projection.activities && StartNext(s, a).Ok?
    ensures var (t, d) := StartNext(s, a).value;
            d.Execute? && d.activity == a && StartsWithin(s, t, a, d.attempt)
  {
    var n := |s.projection.activities[a].attempts| + 1;
    ValidLogAgrees(s);
    forall i | 0 <= i < |s.events|
      ensures s.events[i].kind != AttemptStarted(a, n)
    {
      assert EventAgrees(s.events[i], s.projection);
    }
    AppendFresh(s, AttemptId(a, n, StartPhase), AttemptStarted(a, n));
    var t := StartNext(s, a).value.0;
    assert t.events[|s.events|].kind == AttemptStarted(a, n);
  }

  lemma LaterStart(s: RunState, t: RunState, u: RunState, a: ActivityId, n: nat)
    requires Extends(t, s) && StartsWithin(t, u, a, n)
    ensures StartsWithin(s, u, a, n)
  {
  }

  lemma DecidePermits(s: RunState, a: ActivityId)
    requires Valid(s) && DecideActivity(s, a).Ok? && DecideActivity(s, a).value.1.Execute?
    ensures var (t, d) := DecideActivity(s, a).value;
            d.activity == a && StartsWithin(s, t, a, d.attempt)
  {
    var r := s.projection.activities[a];
    var n := |r.attempts|;
    if LatestIs(r, Running) {
      var failed := AttemptFailed(a, n, WorkerInterrupted, true, true);
      AppendValid(s, AttemptId(a, n, InterruptPhase), failed);
      var t := Append(s, AttemptId(a, n, InterruptPhase), failed).value;
      StartNextIsFresh(t, a);
      LaterStart(s, t, StartNext(t, a).value.0, a, StartNext(t, a).value.1.attempt);
    } else {
      StartNextIsFresh(s, a);
    }
  }

  lemma PreparePermits(s: RunState, a: ActivityId, d: Definition)
    requires Valid(s) && PrepareActivity(s, a, d).Ok? && PrepareActivity(s, a, d).value.1.Execute?
    ensures var (t, permit) := PrepareActivity(s, a, d).value;
            permit.activity == a && StartsWithin(s, t, a, permit.attempt)
  {
    if a in s.projection.activities {
      DecidePermits(s, a);
    } else {
      AppendValid(s, ScheduledId(a), ActivityScheduled(a, d));
      var t := Append(s, ScheduledId(a), ActivityScheduled(a, d)).value;
      DecidePermits(t, a);
      LaterStart(s, t, DecideActivity(t, a).value.0, a, DecideActivity(t, a).value.1.attempt);
    }
  }

  lemma FailPermits(s: RunState, a: ActivityId, n: nat, error: Note, retryable: bool, ambiguous: bool)
    requires Valid(s) && FailActivity(s, a, n, error, retryable, ambiguous).Ok?
    requires FailActivity(s, a, n, error, retryable, ambiguous).value.1.Execute?
    ensures var (t, permit) := FailActivity(s, a, n, error, retryable, ambiguous).value;
            permit.activity == a && StartsWithin(s, t, a, permit.attempt)
  {
    var failed := AttemptFailed(a, n, error, retryable, ambiguous);
    AppendValid(s, AttemptId(a, n, FailPhase), failed);
    var t := Append(s, AttemptId(a, n, FailPhase), failed).value;
    DecidePermits(t, a);
    LaterStart(s, t, DecideActivity(t, a).value.0, a, DecideActivity(t, a).value.1.attempt);
  }

  lemma BeginPermits(s: RunState, c: Command, a: ActivityId, n: nat)
    requires c.BeginActivity? || c.BeginLifecycle? || c.BeginRunStopped? || c.BeginRecovery? || c.BeginRetry?
    requires Valid(s) && Mutate(s, c).Ok? && Permits(Mutate(s, c).value.1, a, n)
    ensures StartsWithin(s, Mutate(s, c).value.0, a, n)
  {
    hide PrepareActivity, Valid, EnvelopeOk, ReplayFromRecord, ValidatedReceipt, StartsWithin;
    hide TerminalAuditExists, RunningOutside, LifecycleOpen, RetryAuthorized, CompletedOutput, LatestIs;
    match c
    case BeginActivity(b, d) => PreparePermits(s, b, d);
    case BeginLifecycle(invocationId) =>
      PreparePermits(s, LifecycleOf(invocationId), LifecycleDefinition(s.runId, invocationId));
    case BeginRunStopped(replay) => PreparePermits(s, CANONICAL_AUDIT, AuditDefinition(replay));
    case BeginRecovery(replay) => PreparePermits(s, RecoveryOf(replay.invocationId), AuditDefinition(replay));
    case BeginRetry(replay) => PreparePermits(s, AuditOf(replay), s.projection.activities[AuditOf(replay)].definition);
  }

  /** Besides the commands that begin something, only a retryable failure grants permission to execute. */
  lemma OnlyFailureAlsoPermits(s: RunState, c: Command, a: ActivityId, n: nat)
    requires !(c.BeginActivity? || c.BeginLifecycle? || c.BeginRunStopped? || c.BeginRecovery? || c.BeginRetry?)
    requires Mutate(s, c).Ok? && Permits(Mutate(s, c).value.1, a, n)
    ensures c.CommitFailure?
  {
    hide FailActivity, CompleteActivity, ReconcileActivity, Append, StopAs, Dispose;
    hide EnvelopeOk, ReplayFromRecord, ReplayFromLifecycle, ValidatedReceipt;
  }

  /** No command grants permission to execute without starting that very attempt in the log it commits. */
  lemma PermitIsPersisted(s: RunState, c: Command, a: ActivityId, n: nat)
    requires Valid(s) && Mutate(s, c).Ok? && Permits(Mutate(s, c).value.1, a, n)
    ensures StartsWithin(s, Mutate(s, c).value.0, a, n)
  {
    if c.BeginActivity? || c.BeginLifecycle? || c.BeginRunStopped? || c.BeginRecovery? || c.BeginRetry? {
      hide Mutate, Valid, StartsWithin;
      BeginPermits(s, c, a, n);
    } else {
      hide FailActivity, Valid, StartsWithin;
      OnlyFailureAlsoPermits(s, c, a, n);
      FailPermits(s, c.activity, c.attempt, c.error, c.retryable, c.effectAmbiguous);
    }
  }

  // ---------------------------------------------------------------- the terminal boundary

  predicate OpensStep(kind: EventKind, step: Step -> bool) {
    || (kind.ActivityScheduled? && step(kind.scheduled.step))
    || (kind.AttemptStarted? && step(kind.started.step))
  }

  predicate IsOrdinary(step: Step) {
    step.Ordinary?
  }

  predicate IsLifecycle(step: Step) {
    step == Lifecycle
  }

  lemma FirstEventStarts(s: RunState)
    requires Valid(s)
    ensures |s.events| >= 1 && s.events[0].kind.RunStarted?
    decreases |s.events|
  {
    if |s.events| > 1 {
      FirstEventStarts(Prior(s));
      assert s.events[0] == Prior(s).events[0];
    }
  }

  lemma ScheduledIsPresent(s: RunState, i: nat, n: nat)
    requires Valid(s) && i < n <= |s.events| && s.events[i].kind.ActivityScheduled?
    ensures s.events[i].kind.scheduled in At(s, n).projection.activities
  {
    var t := At(s, n);
    ValidLogAgrees(t);
    assert t.events[i] == s.events[i];
    assert EventAgrees(t.events[i], t.projection);
  }

  /** In every valid log the canonical RunStopped audit is scheduled at most once. */
  lemma CanonicalScheduledAtMostOnce(s: RunState, i: nat, j: nat)
    requires Valid(s) && i <= j < |s.events|
    requires s.events[i].kind.ActivityScheduled? && s.events[i].kind.scheduled == CANONICAL_AUDIT
    requires s.events[j].kind.ActivityScheduled? && s.events[j].kind.scheduled == CANONICAL_AUDIT
    ensures i == j
  {
    FirstEventStarts(s);
    AtStep(s, j);
    if i < j {
      ScheduledIsPresent(s, i, j);
    }
  }

  /** It is scheduled only while its own invocation's lifecycle runs and nothing else does. */
  lemma CanonicalScheduleIsExclusive(s: RunState, j: nat)
    requires Valid(s) && j < |s.events|
    requires s.events[j].kind.ActivityScheduled? && s.events[j].kind.scheduled == CANONICAL_AUDIT
    ensures j >= 1
    ensures var input := s.events[j].kind.definition.input;
            input.AuditInput? && OnlyLifecycleRunning(s.runId, At(s, j).projection.activities, input.replay.invocationId)
  {
    FirstEventStarts(s);
    AtStep(s, j);
  }

  /** Once it is scheduled, no ordinary activity is ever scheduled or started again, in any valid log. */
  lemma NoOrdinaryWorkAfterCanonical(s: RunState, i: nat, j: nat)
    requires Valid(s) && i < j < |s.events|
    requires s.events[i].kind.ActivityScheduled? && s.events[i].kind.scheduled == CANONICAL_AUDIT
    ensures !OpensStep(s.events[j].kind, IsOrdinary)
  {
    FirstEventStarts(s);
    AtStep(s, j);
    ScheduledIsPresent(s, i, j);
    var p := At(s, j).projection;
    ValidRecords(At(s, j));
    assert RecordOk(s.runId, CANONICAL_AUDIT, p.activities[CANONICAL_AUDIT]);
    assert HasTerminalMarker(p);
  }

  /** Failing a lifecycle attempt never starts another one. */
  lemma FailedLifecycleStaysClosed(s: RunState, a: ActivityId, n: nat, error: Note, retryable: bool, ambiguous: bool)
    requires Valid(s) && a.step == Lifecycle && FailActivity(s, a, n, error, retryable, ambiguous).Ok?
    ensures var t := FailActivity(s, a, n, error, retryable, ambiguous).value.0;
            forall j :: |s.events| <= j < |t.events| ==> t.events[j].kind.ReconciliationRequired?
  {
    hide DecideActivity, Apply, Valid;
    ValidRecords(s);
    assert RecordOk(s.runId, a, s.projection.activities[a]);
  }

  lemma CommandOpensNoLifecycle(s: RunState, c: Command, i: nat, j: nat)
    requires Valid(s) && Mutate(s, c).Ok?
    requires i < j && |s.events| <= j < |Mutate(s, c).value.0.events|
    requires Mutate(s, c).value.0.events[i].kind.ActivityScheduled?
    requires Mutate(s, c).value.0.events[i].kind.scheduled == CANONICAL_AUDIT
    ensures !OpensStep(Mutate(s, c).value.0.events[j].kind, IsLifecycle)
  {
    hide PrepareActivity, FailActivity, CompleteActivity, ReconcileActivity, Append, StopAs, Dispose, Valid;
    hide EnvelopeOk, ReplayFromRecord, ReplayFromLifecycle, ValidatedReceipt;
    var t := Mutate(s, c).value.0;
    CommandContinues(s, c);
    assert MayFor(c)(t.events[j].kind);
    if i < |s.events| {
      assert s.events[i] == t.events[i];
      ScheduledIsPresent(s, i, |s.events|);
      if c.CommitFailure? && c.activity.step == Lifecycle {
        FailedLifecycleStaysClosed(s, c.activity, c.attempt, c.error, c.retryable, c.effectAmbiguous);
      }
    } else {
      assert MayFor(c)(t.events[i].kind);
    }
  }

  /**
   The terminal boundary of driver-written histories: after the canonical RunStopped audit is
   scheduled, no command sequence ever opens another invocation lifecycle.
   */
  lemma {:induction false} NoLifecycleAfterCanonical(s: RunState, commands: seq<Command>, i: nat, j: nat)
    requires Valid(s) && |s.events| == 1 && Commit(s, commands).Ok?
    requires i < j < |Commit(s, commands).value.events|
    requires Commit(s, commands).value.events[i].kind.ActivityScheduled?
    requires Commit(s, commands).value.events[i].kind.scheduled == CANONICAL_AUDIT
    ensures !OpensStep(Commit(s, commands).value.events[j].kind, IsLifecycle)
    decreases |commands|
  {
    FirstEventStarts(s);
    if commands != [] {
      var earlier, c := commands[..|commands| - 1], commands[|commands| - 1];
      var prior := Commit(s, earlier).value;
      CommitValid(s, earlier);
      if j < |prior.events| {
        CommandContinues(prior, c);
        NoLifecycleAfterCanonical(s, earlier, i, j);
      } else {
        CommandOpensNoLifecycle(prior, c, i, j);
      }
    }
  }

  // ---------------------------------------------------------------- finalization

  lemma TerminalIsForever(runId: string, p: Projection, kind: EventKind, sequence: nat)
    requires Terminal(p.status) && Apply(runId, p, kind, sequence).Ok?
    ensures Apply(runId, p, kind, sequence).value.status == p.status
  {
  }

  predicate StopsAs(kind: EventKind, status: RunStatus) {
    match kind
    case Complete => status == RunCompleted
    case Fail(_) => status == RunFailed
    case Cancel(_) => status == RunCancelled
    case _ => true
  }

  /** A terminal event in the log is the status of the run, for ever after. */
  lemma {:induction false} StopIsFinal(s: RunState, i: nat)
    requires Valid(s) && i < |s.events|
    ensures StopsAs(s.events[i].kind, s.projection.status)
    decreases |s.events|
  {
    FirstEventStarts(s);
    if |s.events| > 1 && i < |s.events| - 1 {
      var prior := Prior(s);
      StopIsFinal(prior, i);
      assert prior.events[i] == s.events[i];
      if Terminal(prior.projection.status) {
        TerminalIsForever(s.runId, prior.projection, s.events[|s.events| - 1].kind, |s.events|);
      }
    }
  }

  lemma CheckpointKeepsStatus(s: RunState, key: CheckpointKey, caption: Note)
    requires Valid(s) && Checkpoint(s, key, caption).Ok?
    ensures var t := Checkpoint(s, key, caption).value; Valid(t) && t.projection.status == s.projection.status
  {
    AppendValid(s, CheckpointEventId(key), CheckpointCommitted(key, Some(caption)));
  }

  /** The run stopped this way, and a failure or cancellation kept its reason. */
  predicate StoppedAs(p: Projection, status: RunStatus, reason: Note) {
    p.status == status && p.pauseReason == if status == RunCompleted then None else Some(reason)
  }

  lemma StopEventReachesStatus(s: RunState, status: RunStatus, reason: Note)
    requires Valid(s) && Terminal(status) && !Terminal(s.projection.status)
    requires StopRun(s, StopId(status), StopKind(status, reason)).Ok?
    ensures StoppedAs(StopRun(s, StopId(status), StopKind(status, reason)).value.projection, status, reason)
  {
    hide Valid, ReservedAuditsClosed, HasRunningAttempt, HasPendingApproval, HasPendingReconciliation;
    var kind := StopKind(status, reason);
    forall i | 0 <= i < |s.events|
      ensures s.events[i].kind != kind
    {
      StopIsFinal(s, i);
    }
    AppendFresh(s, StopId(status), kind);
  }

  lemma StopReachesStatus(s: RunState, status: RunStatus, reason: Note)
    requires Valid(s) && Terminal(status) && !Terminal(s.projection.status) && StopAs(s, status, reason).Ok?
    ensures StoppedAs(StopAs(s, status, reason).value.projection, status, reason)
  {
    hide Checkpoint, StopRun, Valid;
    CheckpointKeepsStatus(s, StopCheckpoint(status), RuntimeStopped(status));
    StopEventReachesStatus(Checkpoint(s, StopCheckpoint(status), RuntimeStopped(status)).value, status, reason);
  }

  /**
   Finalization is idempotent across restarts: whatever it committed, it reaches the status of the
   receipt, and finalizing the committed state again succeeds and appends nothing.
   */
  lemma FinalizeIsIdempotent(s: RunState, receipt: Receipt)
    requires Valid(s) && MutateFinalize(s, receipt).Ok?
    ensures var t := MutateFinalize(s, receipt).value.0;
            t.projection.status == ReceiptStatus(receipt) && MutateFinalize(t, receipt) == Ok((t, Done))
  {
    if s.projection.status != ReceiptStatus(receipt) {
      StopReachesStatus(s, ReceiptStatus(receipt), Text(receipt.reason));
    }
  }

  /**
   The status a receipt stands for: a run that ended its turn or stopped is completed, one that was
   cancelled or whose approval was interrupted is cancelled, and every other reason is a failure, kept.
   */
  lemma FinalizedStatusByReason(s: RunState, receipt: Receipt)
    requires Valid(s) && MutateFinalize(s, receipt).Ok?
    ensures var t, reason := MutateFinalize(s, receipt).value.0, receipt.reason;
            && (t.projection.status == RunCompleted <==> reason == "end_turn" || reason == "stop")
            && (t.projection.status == RunCancelled <==> reason == "approval_interrupted" || reason == "cancelled")
            && (t.projection.status == RunFailed <==>
                  reason != "end_turn" && reason != "stop" && reason != "approval_interrupted" && reason != "cancelled")
            && (t != s && t.projection.status != RunCompleted ==> t.projection.pauseReason == Some(Text(reason)))
  {
    hide StopAs, Valid;
    if s.projection.status != ReceiptStatus(receipt) {
      StopReachesStatus(s, ReceiptStatus(receipt), Text(receipt.reason));
    }
  }

  /**
   Stopping a run directly: completing succeeds only by reaching RunCompleted; failing and cancelling reach
   their status with the given reason, or leave a run alone that has stopped or awaits reconciliation.
   */
  lemma DirectStopMeaning(s: RunState, status: RunStatus, reason: Note)
    requires Valid(s) && Terminal(status) && MutateStop(s, status, reason).Ok?
    ensures var t := MutateStop(s, status, reason).value.0;
            || StoppedAs(t.projection, status, reason)
            || (status != RunCompleted && t == s && (Terminal(s.projection.status) || s.projection.status == ReconciliationPending))
  {
    hide StopAs, Valid;
    if Terminal(s.projection.status) {
      StoppedRunIsRefused(s, status, reason);
    } else if (status == RunCompleted || s.projection.status != ReconciliationPending) {
      StopReachesStatus(s, status, reason);
    }
  }

  lemma StoppedRunIsRefused(s: RunState, status: RunStatus, reason: Note)
    requires Terminal(status) && Terminal(s.projection.status)
    ensures StopAs(s, status, reason).Err?
  {
  }

  /** No foreign event took the stable identities finalization writes under; its own checkpoint may be there. */
  predicate StopIdsFree(s: RunState, status: RunStatus) {
    var key := StopCheckpoint(status);
    && !IdUsed(s.events, StopId(status))
    && (|| IdUsedFor(s.events, CheckpointEventId(key), CheckpointCommitted(key, Some(RuntimeStopped(status))))
        || (!IdUsed(s.events, CheckpointEventId(key)) && key !in s.projection.checkpoints))
  }

  lemma ClosedLifecycleIsQuiet(runId: string, a: ActivityId, r: Record)
    requires RecordOk(runId, a, r) && a.step == Lifecycle && Settled(None, a, r) && !LatestIs(r, NeedsReconciliation)
    ensures !RunningIn(r) && CompletedOutput(r).Some?
  {
    assert AttemptOk(runId, a, r.definition, r.attempts[0]);
    assert CompletedAmong(r.attempts[..0]) == None;
  }

  /** A settled run with every audit complete and nothing ambiguous can stop. */
  lemma SettledRunCanStop(s: RunState)
    requires Valid(s) && s.projection.status == Active && !Blocked(s.projection) && AllSettled(None, s.projection)
    requires CANONICAL_AUDIT in s.projection.activities
    requires forall a :: a in s.projection.activities && (a.step == RecoveryAudit || a.step == RunStoppedAudit)
                         ==> CompletedOutput(s.projection.activities[a]).Some?
    ensures ReservedAuditsClosed(s.projection) && !HasRunningAttempt(s.projection)
    ensures !HasPendingApproval(s.projection) && !HasPendingReconciliation(s.projection)
  {
    hide Valid, AuditIntentOk;
    ValidRecords(s);
    ValidStatus(s);
    var p := s.projection;
    forall a | a in p.activities
      ensures !RunningIn(p.activities[a])
      ensures IsReserved(a, p.activities[a].definition) ==>
                a.step != LegacyRunStoppedAudit && CompletedOutput(p.activities[a]).Some?
    {
      var r := p.activities[a];
      assert RecordOk(s.runId, a, r) && Settled(None, a, r);
      if a.step == Lifecycle {
        ClosedLifecycleIsQuiet(s.runId, a, r);
      } else if a.step.Ordinary? {
        assert RecordOk(s.runId, CANONICAL_AUDIT, p.activities[CANONICAL_AUDIT]);
        assert HasTerminalMarker(p);
      }
    }
  }

  /**
   A FinalizeTerminal verdict is honoured: finalizing that receipt on an active run succeeds, and reaches
   its status, if and only if no foreign event took the identities finalization writes under.
   */
  lemma FinalizeVerdictIsHonoured(s: RunState, order: seq<ActivityId>, receipt: Receipt)
    requires Valid(s) && Enumerates(order, s.projection.activities) && s.projection.status == Active
    requires Dispose(s, None, order).Ok? && Dispose(s, None, order).value.1 == FinalizeTerminal(receipt)
    ensures MutateFinalize(s, receipt).Ok? <==> StopIdsFree(s, ReceiptStatus(receipt))
    ensures MutateFinalize(s, receipt).Ok? ==>
              MutateFinalize(s, receipt).value.0.projection.status == ReceiptStatus(receipt)
  {
    FinalizeVerdictIsSafe(s, None, order, receipt);
    ValidRecords(s);
    forall a | a in s.projection.activities && a.step == RunStoppedAudit
      ensures a == CANONICAL_AUDIT
    {
      assert RecordOk(s.runId, a, s.projection.activities[a]);
    }
    SettledRunCanStop(s);
    QuietRunStops(s, ReceiptStatus(receipt), Text(receipt.reason));
    if MutateFinalize(s, receipt).Ok? {
      FinalizeIsIdempotent(s, receipt);
    }
  }

  /** The closing checkpoint changes only the set of checkpoints and adds at most its own event. */
  lemma ClosingCheckpoint(s: RunState, status: RunStatus)
    requires Valid(s) && s.projection.status == Active
    ensures var key := StopCheckpoint(status);
            var r := Checkpoint(s, key, RuntimeStopped(status));
            && (r.Ok? <==>
                  || IdUsedFor(s.events, CheckpointEventId(key), CheckpointCommitted(key, Some(RuntimeStopped(status))))
                  || (!IdUsed(s.events, CheckpointEventId(key)) && key !in s.projection.checkpoints))
            && (r.Ok? ==>
                  && Valid(r.value)
                  && r.value.projection == s.projection.(checkpoints := r.value.projection.checkpoints)
                  && (IdUsed(r.value.events, StopId(status)) <==> IdUsed(s.events, StopId(status))))
  {
    hide ApplyActivity, Valid;
    var key := StopCheckpoint(status);
    var r := Checkpoint(s, key, RuntimeStopped(status));
    if r.Ok? {
      AppendValid(s, CheckpointEventId(key), CheckpointCommitted(key, Some(RuntimeStopped(status))));
      if r.value != s {
        assert r.value.events[..|s.events|] == s.events;
        if i :| 0 <= i < |s.events| && s.events[i].id == StopId(status) {
          assert r.value.events[i].id == StopId(status);
        }
      }
    }
  }

  lemma StopEventAccepted(s: RunState, status: RunStatus, reason: Note)
    requires Valid(s) && s.projection.status == Active && Terminal(status)
    requires ReservedAuditsClosed(s.projection) && !HasRunningAttempt(s.projection)
    requires !HasPendingApproval(s.projection) && !HasPendingReconciliation(s.projection)
    ensures StopRun(s, StopId(status), StopKind(status, reason)).Ok? <==> !IdUsed(s.events, StopId(status))
  {
    hide Valid, ReservedAuditsClosed, HasRunningAttempt, HasPendingApproval, HasPendingReconciliation, ApplyActivity;
    forall i | 0 <= i < |s.events|
      ensures s.events[i].kind != StopKind(status, reason)
    {
      StopIsFinal(s, i);
    }
  }

  /** A quiet active run stops if and only if the identities it stops under are free. */
  lemma QuietRunStops(s: RunState, status: RunStatus, reason: Note)
    requires Valid(s) && s.projection.status == Active && Terminal(status)
    requires ReservedAuditsClosed(s.projection) && !HasRunningAttempt(s.projection)
    requires !HasPendingApproval(s.projection) && !HasPendingReconciliation(s.projection)
    ensures StopAs(s, status, reason).Ok? <==> StopIdsFree(s, status)
  {
    hide Checkpoint, StopRun, Valid, CompletedOutput, IsReserved, LatestIs;
    ClosingCheckpoint(s, status);
    var r := Checkpoint(s, StopCheckpoint(status), RuntimeStopped(status));
    if r.Ok? {
      var p, q := s.projection, r.value.projection;
      assert q.activities == p.activities && q.approvals == p.approvals;
      assert ReservedAuditsClosed(q) && !HasRunningAttempt(q) && !HasPendingApproval(q) && !HasPendingReconciliation(q);
      StopEventAccepted(r.value, status, reason);
    }
  }

  // ---------------------------------------------------------------- a host in the runtime's way

  /** The checkpoint a host can commit under the very key the runtime stops with. */
  function WithStopKeyTaken(s: RunState, status: RunStatus, name: string): Result<RunState, Error> {
    Append(s, Custom(name), CheckpointCommitted(StopCheckpoint(status), None))
  }

  lemma HostCheckpointTakesKey(s: RunState, status: RunStatus, name: string)
    requires Valid(s) && s.projection.status == Active && !IdUsed(s.events, Custom(name))
    requires StopIdsFree(s, status) && !IdUsed(s.events, CheckpointEventId(StopCheckpoint(status)))
    ensures WithStopKeyTaken(s, status, name).Ok?
    ensures var t := WithStopKeyTaken(s, status, name).value;
            && Valid(t) && !StopIdsFree(t, status)
            && t.runId == s.runId && t.projection == s.projection.(checkpoints := t.projection.checkpoints)
  {
    hide ApplyActivity, Valid;
    AppendValid(s, Custom(name), CheckpointCommitted(StopCheckpoint(status), None));
    var t := WithStopKeyTaken(s, status, name).value;
    assert t.events == s.events + [Event(|s.events| + 1, Custom(name), CheckpointCommitted(StopCheckpoint(status), None))];
  }

  /**
   The other side: on every run whose receipt could be finalized, a host checkpoint under the runtime's
   key leaves the verdict at FinalizeTerminal and makes every finalization fail.
   */
  lemma HostCheckpointBlocksFinalization(s: RunState, order: seq<ActivityId>, receipt: Receipt, name: string)
    requires Valid(s) && Enumerates(order, s.projection.activities) && s.projection.status == Active
    requires Dispose(s, None, order).Ok? && Dispose(s, None, order).value.1 == FinalizeTerminal(receipt)
    requires StopIdsFree(s, ReceiptStatus(receipt)) && !IdUsed(s.events, Custom(name))
    requires !IdUsed(s.events, CheckpointEventId(StopCheckpoint(ReceiptStatus(receipt))))
    ensures WithStopKeyTaken(s, ReceiptStatus(receipt), name).Ok?
    ensures var t := WithStopKeyTaken(s, ReceiptStatus(receipt), name).value;
            Dispose(t, None, order) == Ok((t, FinalizeTerminal(receipt))) && MutateFinalize(t, receipt).Err?
  {
    hide WithStopKeyTaken, Valid, StopIdsFree, MutateFinalize, Dispose;
    HostCheckpointTakesKey(s, ReceiptStatus(receipt), name);
    var t := WithStopKeyTaken(s, ReceiptStatus(receipt), name).value;
    VerdictIgnoresCheckpoints(s, t, order, receipt);
    FinalizeVerdictIsHonoured(t, order, receipt);
  }

  lemma VerdictIgnoresCheckpoints(s: RunState, t: RunState, order: seq<ActivityId>, receipt: Receipt)
    requires Valid(s) && Valid(t) && Enumerates(order, s.projection.activities)
    requires Dispose(s, None, order).Ok? && Dispose(s, None, order).value.1 == FinalizeTerminal(receipt)
    requires t.runId == s.runId && t.projection == s.projection.(checkpoints := t.projection.checkpoints)
    ensures Dispose(t, None, order) == Ok((t, FinalizeTerminal(receipt)))
  {
    hide Valid, SweepRun, Enumerates, Settled, IsReserved, CompletedOutput, LatestIs, ReplayFromRecord, ValidatedReceipt;
    FinalizeVerdictIsSafe(s, None, order, receipt);
    SweepRunSettles(s, None, order);
    assert AllSettled(None, t.projection) && !Blocked(t.projection);
    SweepOfSettledRun(t, None, order);
    SweepRunSettles(t, None, order);
    assert VerdictFor(t, false, SweepRun(t, None, order).value.reason, order) == Ok(FinalizeTerminal(receipt));
  }

  // ---------------------------------------------------------------- for ever

  lemma StopIdsStayTakenOnce(t: RunState, status: RunStatus)
    requires Valid(t) && |t.events| > 1 && !StopIdsFree(Prior(t), status)
    ensures !StopIdsFree(t, status)
  {
    hide Apply, Valid;
    var prior, last := Prior(t), t.events[|t.events| - 1];
    var key := StopCheckpoint(status);
    var id, kind := CheckpointEventId(key), CheckpointCommitted(key, Some(RuntimeStopped(status)));
    assert t.events == prior.events + [last];
    assert !IdUsed(prior.events, last.id) && Apply(t.runId, prior.projection, last.kind, |t.events|).Ok? by {
      LastIsNew(t);
    }
    CheckpointsGrow(t.runId, prior.projection, last.kind, |t.events|);
    if IdUsedFor(t.events, id, kind) {
      var i :| 0 <= i < |t.events| && t.events[i].id == id && t.events[i].kind == kind;
      assert i < |prior.events| ==> prior.events[i].id == id && prior.events[i].kind == kind;
    }
    if n :| 0 <= n < |prior.events| && prior.events[n].id == StopId(status) {
      assert t.events[n].id == StopId(status);
    }
    if n :| 0 <= n < |prior.events| && prior.events[n].id == id {
      assert t.events[n].id == id;
    }
  }

  lemma LastIsNew(t: RunState)
    requires Valid(t) && |t.events| > 1
    ensures !IdUsed(Prior(t).events, t.events[|t.events| - 1].id)
    ensures Apply(t.runId, Prior(t).projection, t.events[|t.events| - 1].kind, |t.events|) == Ok(t.projection)
  {
    hide Apply;
  }

  lemma CheckpointsGrow(runId: string, p: Projection, kind: EventKind, sequence: nat)
    requires Apply(runId, p, kind, sequence).Ok?
    ensures p.checkpoints <= Apply(runId, p, kind, sequence).value.checkpoints
    ensures kind.CheckpointCommitted? ==> kind.checkpointId !in p.checkpoints
  {
    if ActivityKind(kind) {
      ActivityKeepsControl(runId, p, kind, sequence);
    }
  }

  /** Identities a foreign event took are taken in every continuation of the log. */
  lemma {:induction false} StopIdsStayTaken(s: RunState, t: RunState, status: RunStatus)
    requires Valid(s) && Valid(t) && Extends(t, s) && !StopIdsFree(s, status)
    ensures !StopIdsFree(t, status)
    decreases |t.events|
  {
    hide Valid, StopIdsFree;
    if |t.events| == |s.events| {
      EqualLengthExtensionIsEqual(t, s);
    } else {
      ValidSequences(s);
      StopIdsStayTaken(s, Prior(t), status);
      StopIdsStayTakenOnce(t, status);
    }
  }

  lemma StopNeedsFreeIds(s: RunState, status: RunStatus, reason: Note)
    requires Valid(s) && s.projection.status == Active && Terminal(status) && StopAs(s, status, reason).Ok?
    ensures StopIdsFree(s, status)
  {
    hide Checkpoint, Valid, Apply, CompletedOutput, IsReserved;
    ClosingCheckpoint(s, status);
    var t := Checkpoint(s, StopCheckpoint(status), RuntimeStopped(status)).value;
    forall i | 0 <= i < |t.events|
      ensures t.events[i].kind != StopKind(status, reason)
    {
      StopIsFinal(t, i);
    }
  }

  /**
   Blocked for ever: once a foreign event took the identities a receipt stops under, finalizing it on any
   later state of the run succeeds if and only if the run has already stopped that way by other means.
   */
  lemma BlockedForEver(s: RunState, t: RunState, receipt: Receipt)
    requires Valid(s) && Valid(t) && Extends(t, s) && !StopIdsFree(s, ReceiptStatus(receipt))
    ensures MutateFinalize(t, receipt).Ok? <==> t.projection.status == ReceiptStatus(receipt)
  {
    hide Valid, StopIdsFree, StopAs, Extends;
    StopIdsStayTaken(s, t, ReceiptStatus(receipt));
    if t.projection.status == Active && StopAs(t, ReceiptStatus(receipt), Text(receipt.reason)).Ok? {
      StopNeedsFreeIds(t, ReceiptStatus(receipt), Text(receipt.reason));
    }
  }
}

/**
 What a driver command may append to a run, command by command. Every later result about histories
 written by drivers rests on this: valid states stay valid, and each command writes only its own
 kind of event.
 */
module CommandFacts {
  import opened Wrappers
  import opened RunLog
  import opened RunInvariants
  import opened RunOps
  import opened Disposition
  import opened RunCommands

  /** `kind` opens, restarts or interrupts work on `a`, but records no successful outcome. */
  predicate Opens(kind: EventKind, a: ActivityId) {
    match kind
    case ActivityScheduled(b, _) => b == a
    case AttemptStarted(b, _) => b == a
    case AttemptFailed(b, _, _, _, _) => b == a
    case ReconciliationRequired(b, _, _) => b == a
    case _ => false
  }

  predicate Interrupts(kind: EventKind) {
    kind.AttemptFailed? || kind.ReconciliationRequired?
  }

  predicate Completes(kind: EventKind, a: ActivityId) {
    kind.AttemptCompleted? && kind.completed == a
  }

  predicate Allowed(c: Command, kind: EventKind) {
    match c
    case BeginActivity(a, _) => Opens(kind, a)
    case CommitCompletion(a, _, _) => Completes(kind, a)
    case CommitFailure(a, _, _, _, _) => Opens(kind, a) && !kind.ActivityScheduled?
    case BeginLifecycle(invocationId) => Opens(kind, LifecycleOf(invocationId))
    case CloseUnstarted(a, _) => Completes(kind, a)
    case CloseWithReplay(a, _, _) => Completes(kind, a)
    case CloseFromCanonical(a, _) => Completes(kind, a) && a.step == Lifecycle
    case BeginRunStopped(_) => Opens(kind, CANONICAL_AUDIT)
    case CompleteRunStopped(audit, _, lifecycle, _, _) => Completes(kind, audit) || Completes(kind, lifecycle)
    case FailLinked(audit, _, lifecycle, _) => Interrupts(kind)
    case BeginRecovery(replay) => Opens(kind, RecoveryOf(replay.invocationId))
    case CompleteRecovery(audit, _, lifecycle, _, _) => Completes(kind, audit) || Completes(kind, lifecycle)
    case BeginRetry(replay) => Opens(kind, AuditOf(replay))
    case ClassifyRun(_, _) => Interrupts(kind)
    case Reconcile(_, a, _) => kind.ActivityReconciled? && kind.reconciled == a
    case HostEvent(_, _) => OutsideProtocol(kind)
    case _ => !ActivityKind(kind)
  }

  function MayOpen(a: ActivityId): EventKind -> bool {
    kind => Opens(kind, a)
  }

  function MayComplete(a: ActivityId, b: ActivityId): EventKind -> bool {
    kind => Completes(kind, a) || Completes(kind, b)
  }

  function MayControl(): EventKind -> bool {
    kind => !ActivityKind(kind)
  }

  function MayFor(c: Command): EventKind -> bool {
    kind => Allowed(c, kind)
  }

  /** `t` is a valid continuation of `s` whose new events all satisfy `may` and are properly identified. */
  ghost predicate Continues(s: RunState, t: RunState, may: EventKind -> bool) {
    && Valid(t) && Extends(t, s)
    && forall i :: |s.events| <= i < |t.events| ==> may(t.events[i].kind) && IdFits(t.events[i].id, t.events[i].kind)
  }

  lemma ContinuesTrans(s: RunState, t: RunState, u: RunState, may: EventKind -> bool)
    requires Continues(s, t, may) && Continues(t, u, may)
    ensures Continues(s, u, may)
  {
    forall i | |s.events| <= i < |u.events|
      ensures may(u.events[i].kind) && IdFits(u.events[i].id, u.events[i].kind)
    {
      if i < |t.events| {
        assert u.events[i] == t.events[i];
      }
    }
  }

  lemma ContinuesWeaken(s: RunState, t: RunState, narrow: EventKind -> bool, wide: EventKind -> bool)
    requires Continues(s, t, narrow) && forall kind :: narrow(kind) ==> wide(kind)
    ensures Continues(s, t, wide)
  {
  }

  lemma AppendContinues(s: RunState, id: EventId, kind: EventKind, may: EventKind -> bool)
    requires Valid(s) && Append(s, id, kind).Ok? && may(kind) && IdFits(id, kind)
    ensures Continues(s, Append(s, id, kind).value, may)
  {
    AppendValid(s, id, kind);
  }

  lemma StartNextContinues(s: RunState, a: ActivityId, may: EventKind -> bool)
    requires Valid(s) && a in s.projection.activities && StartNext(s, a).Ok?
    requires forall n: nat :: may(AttemptStarted(a, n))
    ensures Continues(s, StartNext(s, a).value.0, may)
  {
    var n := |s.projection.activities[a].attempts| + 1;
    AppendContinues(s, AttemptId(a, n, StartPhase), AttemptStarted(a, n), may);
  }

  lemma DecideContinues(s: RunState, a: ActivityId, may: EventKind -> bool)
    requires Valid(s) && DecideActivity(s, a).Ok?
    requires forall n: nat :: may(AttemptStarted(a, n))
    requires forall n: nat, e, r, x :: may(AttemptFailed(a, n, e, r, x))
    requires forall n: nat, e :: may(ReconciliationRequired(a, n, e))
    ensures Continues(s, DecideActivity(s, a).value.0, may)
  {
    var r := s.projection.activities[a];
    var n := |r.attempts|;
    if CompletedOutput(r).None? {
      if r.attempts == [] {
        StartNextContinues(s, a, may);
      } else if LatestIs(r, Running) {
        if RetryIsSafe(r.definition, true) {
          var failed := AttemptFailed(a, n, WorkerInterrupted, true, true);
          AppendContinues(s, AttemptId(a, n, InterruptPhase), failed, may);
          var t := Append(s, AttemptId(a, n, InterruptPhase), failed).value;
          StartNextContinues(t, a, may);
          ContinuesTrans(s, t, StartNext(t, a).value.0, may);
        } else {
          AppendContinues(s, AttemptId(a, n, ReconcilePhase), ReconciliationRequired(a, n, UncommittedEffect), may);
        }
      } else if LatestIs(r, Failed) && r.attempts[n - 1].retryable {
        if !RetryIsSafe(r.definition, r.attempts[n - 1].effectAmbiguous) {
          AppendContinues(s, AttemptId(a, n, ReconcilePhase), ReconciliationRequired(a, n, AmbiguousEffect), may);
        } else {
          StartNextContinues(s, a, may);
        }
      }
    }
  }

  lemma ScheduleContinues(s: RunState, a: ActivityId, d: Definition)
    requires Valid(s) && Append(s, ScheduledId(a), ActivityScheduled(a, d)).Ok?
    requires DecideActivity(Append(s, ScheduledId(a), ActivityScheduled(a, d)).value, a).Ok?
    ensures Continues(s, DecideActivity(Append(s, ScheduledId(a), ActivityScheduled(a, d)).value, a).value.0, MayOpen(a))
  {
    AppendContinues(s, ScheduledId(a), ActivityScheduled(a, d), MayOpen(a));
    var t := Append(s, ScheduledId(a), ActivityScheduled(a, d)).value;
    DecideContinues(t, a, MayOpen(a));
    ContinuesTrans(s, t, DecideActivity(t, a).value.0, MayOpen(a));
  }

  lemma PrepareContinues(s: RunState, a: ActivityId, d: Definition)
    requires Valid(s) && PrepareActivity(s, a, d).Ok?
    ensures Continues(s, PrepareActivity(s, a, d).value.0, MayOpen(a))
  {
    if a in s.projection.activities {
      DecideContinues(s, a, MayOpen(a));
    } else {
      ScheduleContinues(s, a, d);
    }
  }

  lemma CompleteContinues(s: RunState, a: ActivityId, n: nat, output: Value, may: EventKind -> bool)
    requires Valid(s) && CompleteActivity(s, a, n, output).Ok? && may(AttemptCompleted(a, n, output))
    ensures Continues(s, CompleteActivity(s, a, n, output).value, may)
  {
    if CompleteActivity(s, a, n, output).value != s {
      AppendContinues(s, AttemptId(a, n, CompletePhase), AttemptCompleted(a, n, output), may);
    }
  }

  /** A failure that is not retried only interrupts. */
  lemma InterruptContinues(s: RunState, a: ActivityId, n: nat, error: Note)
    requires Valid(s) && FailActivity(s, a, n, error, false, true).Ok?
    ensures Continues(s, FailActivity(s, a, n, error, false, true).value.0, Interrupts)
  {
    var d := s.projection.activities[a].definition;
    if IsReserved(a, d) {
      AppendContinues(s, AttemptId(a, n, ReconcilePhase), ReconciliationRequired(a, n, ReservedFailure(error)), Interrupts);
    } else {
      var failed := AttemptFailed(a, n, error, false, true);
      AppendContinues(s, AttemptId(a, n, FailPhase), failed, Interrupts);
      var t := Append(s, AttemptId(a, n, FailPhase), failed).value;
      if !RetryIsSafe(d, true) {
        var kind := ReconciliationRequired(a, n, AmbiguousFailure(error));
        AppendContinues(t, AttemptId(a, n, ReconcilePhase), kind, Interrupts);
        ContinuesTrans(s, t, Append(t, AttemptId(a, n, ReconcilePhase), kind).value, Interrupts);
      }
    }
  }

  lemma FailContinues(s: RunState, a: ActivityId, n: nat, error: Note, retryable: bool, ambiguous: bool)
    requires Valid(s) && FailActivity(s, a, n, error, retryable, ambiguous).Ok?
    ensures Continues(s, FailActivity(s, a, n, error, retryable, ambiguous).value.0,
                      kind => Opens(kind, a) && !kind.ActivityScheduled?)
  {
    hide Append, DecideActivity, Valid, Continues;
    var may := kind => Opens(kind, a) && !kind.ActivityScheduled?;
    var d := s.projection.activities[a].definition;
    if IsReserved(a, d) {
      AppendContinues(s, AttemptId(a, n, ReconcilePhase), ReconciliationRequired(a, n, ReservedFailure(error)), may);
    } else {
      var failed := AttemptFailed(a, n, error, retryable, ambiguous);
      AppendContinues(s, AttemptId(a, n, FailPhase), failed, may);
      var t := Append(s, AttemptId(a, n, FailPhase), failed).value;
      if ambiguous && !RetryIsSafe(d, true) {
        var kind := ReconciliationRequired(a, n, AmbiguousFailure(error));
        AppendContinues(t, AttemptId(a, n, ReconcilePhase), kind, may);
        ContinuesTrans(s, t, Append(t, AttemptId(a, n, ReconcilePhase), kind).value, may);
      } else if retryable {
        DecideContinues(t, a, may);
        ContinuesTrans(s, t, DecideActivity(t, a).value.0, may);
      }
    }
  }

  lemma SweepOneContinues(phase: Phase, snapshot: map<ActivityId, Record>, active: Option<string>, acc: Sweep, a: ActivityId)
    requires Valid(acc.state) && SweepOne(phase, snapshot, active, acc, a).Ok?
    ensures Continues(acc.state, SweepOne(phase, snapshot, active, acc, a).value.state, Interrupts)
  {
    var next := SweepOne(phase, snapshot, active, acc, a).value.state;
    if next != acc.state {
      var r := snapshot[a];
      var why := SweepOne(phase, snapshot, active, acc, a).value.reason;
      if r.attempts == [] {
        AppendContinues(acc.state, AttemptId(a, 1, OrphanPhase), ReconciliationRequired(a, 1, why), Interrupts);
      } else {
        InterruptContinues(acc.state, a, |r.attempts|, why);
      }
    }
  }

  lemma {:induction false} SweepAllContinues(phase: Phase, snapshot: map<ActivityId, Record>, active: Option<string>, acc: Sweep, order: seq<ActivityId>)
    requires Valid(acc.state) && SweepAll(phase, snapshot, active, acc, order).Ok?
    ensures Continues(acc.state, SweepAll(phase, snapshot, active, acc, order).value.state, Interrupts)
    decreases |order|
  {
    if order != [] {
      SweepOneContinues(phase, snapshot, active, acc, order[0]);
      var next := SweepOne(phase, snapshot, active, acc, order[0]).value;
      SweepAllContinues(phase, snapshot, active, next, order[1..]);
      ContinuesTrans(acc.state, next.state, SweepAll(phase, snapshot, active, acc, order).value.state, Interrupts);
    }
  }

  lemma DisposeContinues(s: RunState, active: Option<string>, order: seq<ActivityId>)
    requires Valid(s) && Dispose(s, active, order).Ok?
    ensures Continues(s, Dispose(s, active, order).value.0, Interrupts)
  {
    var snapshot := s.projection.activities;
    SweepAllContinues(Lifecycles, snapshot, active, FirstSweep(s), order);
    var a := SweepAll(Lifecycles, snapshot, active, FirstSweep(s), order).value;
    SweepAllContinues(Recoveries, snapshot, active, a, order);
    var b := SweepAll(Recoveries, snapshot, active, a, order).value;
    SweepAllContinues(CanonicalPhase, snapshot, active, b, order);
    var c := SweepAll(CanonicalPhase, snapshot, active, b, order).value;
    SweepAllContinues(OrdinaryPhase, snapshot, active, c, order);
    var d := SweepAll(OrdinaryPhase, snapshot, active, c, order).value;
    ContinuesTrans(s, a.state, b.state, Interrupts);
    ContinuesTrans(s, b.state, c.state, Interrupts);
    ContinuesTrans(s, c.state, d.state, Interrupts);
  }

  lemma StopContinues(s: RunState, status: RunStatus, reason: Note)
    requires Valid(s) && Terminal(status) && StopAs(s, status, reason).Ok?
    ensures Continues(s, StopAs(s, status, reason).value, MayControl())
  {
    hide Apply;
    var may := MayControl();
    var key := StopCheckpoint(status);
    AppendContinues(s, CheckpointEventId(key), CheckpointCommitted(key, Some(RuntimeStopped(status))), may);
    var t := Checkpoint(s, key, RuntimeStopped(status)).value;
    var u := StopAs(s, status, reason).value;
    if u != t {
      AppendContinues(t, StopId(status), StopKind(status, reason), may);
    }
    ContinuesTrans(s, t, u, may);
  }

  lemma CompleteLinkedContinues(s: RunState, kind: AuditKind, audit: ActivityId, n: nat, lifecycle: ActivityId, m: nat, replay: Replay)
    requires Valid(s) && MutateCompleteLinked(s, kind, audit, n, lifecycle, m, replay).Ok?
    ensures Continues(s, MutateCompleteLinked(s, kind, audit, n, lifecycle, m, replay).value.0,
                      MayComplete(audit, lifecycle))
  {
    var may := MayComplete(audit, lifecycle);
    CompleteContinues(s, audit, n, ExpectedOutput(replay), may);
    var t := CompleteActivity(s, audit, n, ExpectedOutput(replay)).value;
    CompleteContinues(t, lifecycle, m, AuditClosed(replay), may);
    ContinuesTrans(s, t, CompleteActivity(t, lifecycle, m, AuditClosed(replay)).value, may);
  }

  lemma BeginContinues(s: RunState, c: Command)
    requires c.BeginActivity? || c.BeginLifecycle? || c.BeginRunStopped? || c.BeginRecovery? || c.BeginRetry?
    requires Valid(s) && Mutate(s, c).Ok?
    ensures Continues(s, Mutate(s, c).value.0, MayFor(c))
  {
    hide PrepareActivity, Continues, Valid, EnvelopeOk, ReplayFromRecord, ValidatedReceipt, RunningOutside, LatestIs;
    var t := Mutate(s, c).value.0;
    match c
    case BeginActivity(a, d) =>
      PrepareContinues(s, a, d);
      ContinuesWeaken(s, t, MayOpen(a), MayFor(c));
    case BeginLifecycle(invocationId) =>
      PrepareContinues(s, LifecycleOf(invocationId), LifecycleDefinition(s.runId, invocationId));
      ContinuesWeaken(s, t, MayOpen(LifecycleOf(invocationId)), MayFor(c));
    case BeginRunStopped(replay) =>
      PrepareContinues(s, CANONICAL_AUDIT, AuditDefinition(replay));
      ContinuesWeaken(s, t, MayOpen(CANONICAL_AUDIT), MayFor(c));
    case BeginRecovery(replay) =>
      PrepareContinues(s, RecoveryOf(replay.invocationId), AuditDefinition(replay));
      ContinuesWeaken(s, t, MayOpen(RecoveryOf(replay.invocationId)), MayFor(c));
    case BeginRetry(replay) =>
      PrepareContinues(s, AuditOf(replay), s.projection.activities[AuditOf(replay)].definition);
      ContinuesWeaken(s, t, MayOpen(AuditOf(replay)), MayFor(c));
  }

  lemma OutcomeContinues(s: RunState, c: Command)
    requires c.CommitCompletion? || c.CloseUnstarted? || c.CloseWithReplay? || c.CloseFromCanonical?
             || c.CompleteRunStopped? || c.CompleteRecovery?
    requires Valid(s) && Mutate(s, c).Ok?
    ensures Continues(s, Mutate(s, c).value.0, MayFor(c))
  {
    hide CompleteActivity;
    match c
    case CommitCompletion(a, n, output) => CompleteContinues(s, a, n, output, MayFor(c));
    case CloseUnstarted(a, n) => CompleteContinues(s, a, n, NotStarted(s.runId, a.key), MayFor(c));
    case CloseWithReplay(a, n, replay) => CompleteContinues(s, a, n, AuditClosed(replay), MayFor(c));
    case CloseFromCanonical(a, n) =>
      if Mutate(s, c).value.0 != s {
        var replay := s.projection.activities[CANONICAL_AUDIT].definition.input.replay;
        CompleteContinues(s, a, n, AuditClosed(replay), MayFor(c));
      }
    case CompleteRunStopped(audit, n, lifecycle, m, replay) =>
      CompleteLinkedContinues(s, Canonical, audit, n, lifecycle, m, replay);
      ContinuesWeaken(s, Mutate(s, c).value.0, MayComplete(audit, lifecycle), MayFor(c));
    case CompleteRecovery(audit, n, lifecycle, m, replay) =>
      CompleteLinkedContinues(s, Recovery, audit, n, lifecycle, m, replay);
      ContinuesWeaken(s, Mutate(s, c).value.0, MayComplete(audit, lifecycle), MayFor(c));
  }

  lemma FailureContinues(s: RunState, c: Command)
    requires c.CommitFailure? || c.FailLinked? || c.ClassifyRun? || c.Reconcile?
    requires Valid(s) && Mutate(s, c).Ok?
    ensures Continues(s, Mutate(s, c).value.0, MayFor(c))
  {
    hide FailActivity, Dispose, Append;
    var t := Mutate(s, c).value.0;
    match c
    case CommitFailure(a, n, error, retryable, ambiguous) =>
      FailContinues(s, a, n, error, retryable, ambiguous);
      ContinuesWeaken(s, t, kind => Opens(kind, a) && !kind.ActivityScheduled?, MayFor(c));
    case FailLinked(audit, n, lifecycle, m) =>
      InterruptContinues(s, audit, n, UndeliveredRunStopped);
      var u := FailActivity(s, audit, n, UndeliveredRunStopped, false, true).value.0;
      InterruptContinues(u, lifecycle, m, UndeliveredRunStopped);
      ContinuesTrans(s, u, t, Interrupts);
      ContinuesWeaken(s, t, Interrupts, MayFor(c));
    case ClassifyRun(active, order) =>
      DisposeContinues(s, active, order);
      ContinuesWeaken(s, t, Interrupts, MayFor(c));
    case Reconcile(id, a, resolution) =>
      var n := |s.projection.activities[a].attempts|;
      AppendContinues(s, ReconciledId(a, n, id), ActivityReconciled(a, n, resolution), MayFor(c));
  }

  lemma StopCommandContinues(s: RunState, c: Command)
    requires c.Finalize? || c.CompleteRun? || c.FailRun? || c.CancelRun?
    requires Valid(s) && Mutate(s, c).Ok?
    ensures Continues(s, Mutate(s, c).value.0, MayFor(c))
  {
    hide Append, StopAs;
    var t := Mutate(s, c).value.0;
    if t != s {
      match c
      case Finalize(receipt) => StopContinues(s, ReceiptStatus(receipt), Text(receipt.reason));
      case CompleteRun => StopContinues(s, RunCompleted, Text(""));
      case FailRun(failure) => StopContinues(s, RunFailed, failure);
      case CancelRun(reason) => StopContinues(s, RunCancelled, reason);
      ContinuesWeaken(s, t, MayControl(), MayFor(c));
    }
  }

  lemma ControlContinues(s: RunState, c: Command)
    requires c.ClaimLease? || c.RenewLease? || c.ReleaseLease? || c.HostEvent?
    requires Valid(s) && Mutate(s, c).Ok?
    ensures Continues(s, Mutate(s, c).value.0, MayFor(c))
  {
    hide Append;
    match c
    case ClaimLease(owner, lease, at, expires) =>
      AppendContinues(s, LeaseEventId(ClaimPhase, lease, at), LeaseClaimed(owner, lease, at, expires), MayFor(c));
    case RenewLease(owner, lease, at, expires) =>
      AppendContinues(s, LeaseEventId(RenewPhase, lease, at), LeaseRenewed(owner, lease, at, expires), MayFor(c));
    case ReleaseLease(owner, lease, at) =>
      AppendContinues(s, LeaseEventId(ReleasePhase, lease, at), LeaseReleased(owner, lease, at), MayFor(c));
    case HostEvent(id, kind) => AppendContinues(s, id, kind, MayFor(c));
  }

  /** Every command keeps the run valid, only appends, and writes only the events it is allowed to. */
  lemma CommandContinues(s: RunState, c: Command)
    requires Valid(s) && Mutate(s, c).Ok?
    ensures Continues(s, Mutate(s, c).value.0, MayFor(c))
  {
    hide Mutate;
    if c.BeginActivity? || c.BeginLifecycle? || c.BeginRunStopped? || c.BeginRecovery? || c.BeginRetry? {
      BeginContinues(s, c);
    } else if c.CommitCompletion? || c.CloseUnstarted? || c.CloseWithReplay? || c.CloseFromCanonical?
              || c.CompleteRunStopped? || c.CompleteRecovery? {
      OutcomeContinues(s, c);
    } else if c.CommitFailure? || c.FailLinked? || c.ClassifyRun? || c.Reconcile? {
      FailureContinues(s, c);
    } else if c.Finalize? || c.CompleteRun? || c.FailRun? || c.CancelRun? {
      StopCommandContinues(s, c);
    } else {
      ControlContinues(s, c);
    }
  }
}

/**
 What every driver command has achieved once it has succeeded, told by the state and the log it leaves.
 */
module CommandMeaning {
  import opened Wrappers
  import opened RunLog
  import opened AttemptHistory
  import opened RunOps
  import opened Disposition
  import opened DispositionFacts
  import opened RunCommands
  import opened TerminalProtocol
  import opened PairAtomicity
  import opened Decisions
  import opened Verdicts

  /** Attempt `n` of `a` is completed with this output. */
  predicate CompletedWith(t: RunState, a: ActivityId, n: nat, output: Value) {
    && HasAttempt(t.projection, a, n)
    && t.projection.activities[a].attempts[n - 1].status == Completed
    && t.projection.activities[a].attempts[n - 1].output == Some(output)
  }

  ghost predicate LogContains(t: RunState, kind: EventKind) {
    exists i :: 0 <= i < |t.events| && t.events[i].kind == kind
  }

  /** The activity has the definition asked for, the decision rests on the log, and it is what the record called for. */
  ghost predicate Begun(s: RunState, t: RunState, a: ActivityId, d: Definition, o: Outcome) {
    && o.Decided? && o.decision.activity == a && DecisionFits(t, o.decision)
    && t.projection.activities[a].definition == d
    && (a in s.projection.activities ==> CallsFor(s.projection.activities[a], a, o.decision))
    && (a !in s.projection.activities ==> o.decision == Execute(a, 1, d.idempotencyKey))
  }

  /** The run stopped this way, or was left alone because it had stopped or is ambiguous. */
  predicate StoppedOrLeft(s: RunState, t: RunState, status: RunStatus, reason: Note) {
    || StoppedAs(t.projection, status, reason)
    || (status != RunCompleted && t == s && (Terminal(s.projection.status) || s.projection.status == ReconciliationPending))
  }

  ghost predicate Achieves(s: RunState, c: Command, t: RunState, o: Outcome) {
    match c
    case BeginActivity(a, d) => Begun(s, t, a, d, o) && CANONICAL_AUDIT !in s.projection.activities
    case CommitCompletion(a, n, output) => o == Done && CompletedWith(t, a, n, output)
    case CommitFailure(a, _, _, _, _) => o.Decided? && o.decision.activity == a && DecisionFits(t, o.decision)
    case BeginLifecycle(i) =>
      Begun(s, t, LifecycleOf(i), LifecycleDefinition(s.runId, i), o) && CANONICAL_AUDIT !in s.projection.activities
    case CloseUnstarted(a, n) => o == Done && CompletedWith(t, a, n, NotStarted(s.runId, a.key))
    case CloseWithReplay(a, n, replay) => o == Done && CompletedWith(t, a, n, AuditClosed(replay))
    case CloseFromCanonical(a, n) => o.Flag? && (!o.flag ==> t == s)
    case BeginRunStopped(replay) => Begun(s, t, CANONICAL_AUDIT, AuditDefinition(replay), o)
    case CompleteRunStopped(audit, n, lifecycle, m, replay) =>
      && o == Done && replay.kind == Canonical && CompletedWith(t, lifecycle, m, AuditClosed(replay))
      && (audit != lifecycle ==> CompletedWith(t, audit, n, ReceiptValue(replay.receipt)))
    case FailLinked(_, _, _, _) => o == Done
    case BeginRecovery(replay) => Begun(s, t, RecoveryOf(replay.invocationId), AuditDefinition(replay), o)
    case CompleteRecovery(audit, n, lifecycle, m, replay) =>
      && o == Done && replay.kind == Recovery && CompletedWith(t, lifecycle, m, AuditClosed(replay))
      && (audit != lifecycle ==> CompletedWith(t, audit, n, Accepted))
    case BeginRetry(replay) =>
      && o.RetryStarted? && o.activity == AuditOf(replay) && o.activity in t.projection.activities
      && LatestIs(t.projection.activities[o.activity], Running) && o.attempt == |t.projection.activities[o.activity].attempts|
    case Finalize(receipt) => o == Done && t.projection.status == ReceiptStatus(receipt)
    case CompleteRun => o == Done && StoppedOrLeft(s, t, RunCompleted, Text(""))
    case FailRun(failure) => o == Done && StoppedOrLeft(s, t, RunFailed, failure)
    case CancelRun(reason) => o == Done && StoppedOrLeft(s, t, RunCancelled, reason)
    case ClassifyRun(active, order) =>
      Enumerates(order, s.projection.activities) ==>
        o.Judged? && AllSettled(active, t.projection) && VerdictFits(t.projection, o.verdict)
    case Reconcile(_, a, resolution) =>
      && o == Done && a in s.projection.activities
      && LogContains(t, ActivityReconciled(a, |s.projection.activities[a].attempts|, resolution))
    case ClaimLease(owner, lease, at, expires) =>
      o == Flag(s.projection.lease.Some?) && LogContains(t, LeaseClaimed(owner, lease, at, expires))
    case RenewLease(owner, lease, at, expires) => o == Done && LogContains(t, LeaseRenewed(owner, lease, at, expires))
    case ReleaseLease(owner, lease, at) => o == Done && LogContains(t, LeaseReleased(owner, lease, at))
    case HostEvent(_, kind) => o == Done && OutsideProtocol(kind) && LogContains(t, kind)
  }

  lemma AppendContains(s: RunState, id: EventId, kind: EventKind)
    requires Append(s, id, kind).Ok?
    ensures LogContains(Append(s, id, kind).value, kind)
  {
    hide Apply;
    var t := Append(s, id, kind).value;
    if t == s {
      var i :| 0 <= i < |s.events| && s.events[i].id == id && s.events[i].kind == kind;
    } else {
      assert t.events[|s.events|].kind == kind;
    }
  }

  lemma BeginAchieves(s: RunState, c: Command)
    requires c.BeginActivity? || c.BeginLifecycle? || c.BeginRunStopped? || c.BeginRecovery? || c.BeginRetry?
    requires Valid(s) && Mutate(s, c).Ok?
    ensures Achieves(s, c, Mutate(s, c).value.0, Mutate(s, c).value.1)
  {
    hide PrepareActivity, Valid, EnvelopeOk, ReplayFromRecord, ValidatedReceipt, CallsFor;
    hide RunningOutside, LifecycleOpen, RetryAuthorized, CompletedOutput;
    match c
    case BeginActivity(b, d) => PreparedIsBegun(s, b, d);
    case BeginLifecycle(i) => PreparedIsBegun(s, LifecycleOf(i), LifecycleDefinition(s.runId, i));
    case BeginRunStopped(replay) => PreparedIsBegun(s, CANONICAL_AUDIT, AuditDefinition(replay));
    case BeginRecovery(replay) => PreparedIsBegun(s, RecoveryOf(replay.invocationId), AuditDefinition(replay));
    case BeginRetry(replay) =>
      PreparedIsBegun(s, AuditOf(replay), s.projection.activities[AuditOf(replay)].definition);
  }

  lemma PreparedIsBegun(s: RunState, a: ActivityId, d: Definition)
    requires Valid(s) && PrepareActivity(s, a, d).Ok?
    ensures Begun(s, PrepareActivity(s, a, d).value.0, a, d, Decided(PrepareActivity(s, a, d).value.1))
  {
    hide PrepareActivity, Valid, DecisionFits;
    BeginMeaning(s, a, d);
    if a in s.projection.activities {
      CalledForIsAbout(s.projection.activities[a], a, PrepareActivity(s, a, d).value.1);
    }
  }

  lemma CalledForIsAbout(r: Record, a: ActivityId, d: Decision)
    requires CallsFor(r, a, d)
    ensures d.activity == a
  {
  }

  lemma CloseAchieves(s: RunState, c: Command)
    requires c.CloseUnstarted? || c.CloseWithReplay? || c.CloseFromCanonical?
    requires Valid(s) && MutateLifecycle(s, c).Ok?
    ensures Achieves(s, c, MutateLifecycle(s, c).value.0, MutateLifecycle(s, c).value.1)
  {
    hide CompleteActivity, Valid, ReplayFromRecord, ReplayFromLifecycle, ValidatedReceipt, CompletedOutput;
    hide EnvelopeOk, IsReserved;
    match c
    case CloseUnstarted(a, n) => CompletionEffect(s, a, n, NotStarted(s.runId, a.key));
    case CloseWithReplay(a, n, replay) => CompletionEffect(s, a, n, AuditClosed(replay));
    case CloseFromCanonical(a, n) =>
  }

  lemma OutcomeAchieves(s: RunState, c: Command)
    requires c.CommitCompletion? || c.CloseUnstarted? || c.CloseWithReplay? || c.CloseFromCanonical?
             || c.CompleteRunStopped? || c.CompleteRecovery?
    requires Valid(s) && Mutate(s, c).Ok?
    ensures Achieves(s, c, Mutate(s, c).value.0, Mutate(s, c).value.1)
  {
    hide CompleteActivity, Valid, MutateLifecycle, MutateCompleteLinked;
    if c.CommitCompletion? {
      CompletionEffect(s, c.activity, c.attempt, c.output);
    } else if c.CompleteRunStopped? {
      PairAchieves(s, Canonical, c.audit, c.auditAttempt, c.lifecycle, c.lifecycleAttempt, c.replay);
    } else if c.CompleteRecovery? {
      PairAchieves(s, Recovery, c.audit, c.auditAttempt, c.lifecycle, c.lifecycleAttempt, c.replay);
    } else {
      CloseAchieves(s, c);
    }
  }

  lemma PairAchieves(s: RunState, kind: AuditKind, audit: ActivityId, n: nat, lifecycle: ActivityId, m: nat, replay: Replay)
    requires Valid(s) && MutateCompleteLinked(s, kind, audit, n, lifecycle, m, replay).Ok? && kind != Direct
    ensures var (t, o) := MutateCompleteLinked(s, kind, audit, n, lifecycle, m, replay).value;
            && o == Done && replay.kind == kind && CompletedWith(t, lifecycle, m, AuditClosed(replay))
            && (audit != lifecycle ==> CompletedWith(t, audit, n, if kind == Recovery then Accepted else ReceiptValue(replay.receipt)))
  {
    hide CompleteActivity, Valid;
    CompletionEffect(s, audit, n, ExpectedOutput(replay));
    var u := CompleteActivity(s, audit, n, ExpectedOutput(replay)).value;
    CompletionEffect(u, lifecycle, m, AuditClosed(replay));
  }

  lemma StopAchieves(s: RunState, c: Command)
    requires c.Finalize? || c.CompleteRun? || c.FailRun? || c.CancelRun?
    requires Valid(s) && Mutate(s, c).Ok?
    ensures Achieves(s, c, Mutate(s, c).value.0, Mutate(s, c).value.1)
  {
    hide StopAs, Valid;
    match c
    case Finalize(receipt) => FinalizeIsIdempotent(s, receipt);
    case CompleteRun => DirectStopMeaning(s, RunCompleted, Text(""));
    case FailRun(failure) => DirectStopMeaning(s, RunFailed, failure);
    case CancelRun(reason) => DirectStopMeaning(s, RunCancelled, reason);
  }

  lemma ControlAchieves(s: RunState, c: Command)
    requires c.Reconcile? || c.ClaimLease? || c.RenewLease? || c.ReleaseLease? || c.HostEvent?
    requires Valid(s) && Mutate(s, c).Ok?
    ensures Achieves(s, c, Mutate(s, c).value.0, Mutate(s, c).value.1)
  {
    hide Append, Valid, ReconciliationOk, LogContains;
    match c
    case Reconcile(id, a, resolution) =>
      var n := |s.projection.activities[a].attempts|;
      AppendContains(s, ReconciledId(a, n, id), ActivityReconciled(a, n, resolution));
    case ClaimLease(owner, lease, at, expires) =>
      AppendContains(s, LeaseEventId(ClaimPhase, lease, at), LeaseClaimed(owner, lease, at, expires));
    case RenewLease(owner, lease, at, expires) =>
      AppendContains(s, LeaseEventId(RenewPhase, lease, at), LeaseRenewed(owner, lease, at, expires));
    case ReleaseLease(owner, lease, at) =>
      AppendContains(s, LeaseEventId(ReleasePhase, lease, at), LeaseReleased(owner, lease, at));
    case HostEvent(id, kind) => AppendContains(s, id, kind);
  }

  lemma SettlingAchieves(s: RunState, c: Command)
    requires c.CommitFailure? || c.FailLinked? || c.ClassifyRun?
    requires Valid(s) && Mutate(s, c).Ok?
    ensures Achieves(s, c, Mutate(s, c).value.0, Mutate(s, c).value.1)
  {
    hide FailActivity, Dispose, Valid, DecisionFits, AllSettled, VerdictFits, Enumerates;
    match c
    case CommitFailure(a, n, error, retryable, ambiguous) => FailureMeaning(s, a, n, error, retryable, ambiguous);
    case FailLinked(_, _, _, _) =>
    case ClassifyRun(active, order) =>
      if Enumerates(order, s.projection.activities) {
        VerdictIsExact(s, active, order, ExecuteRun);
        DispositionIsComplete(s, active, order);
      }
  }

  /** Every driver command that succeeds has achieved what it is for. */
  lemma CommandAchieves(s: RunState, c: Command)
    requires Valid(s) && Mutate(s, c).Ok?
    ensures Achieves(s, c, Mutate(s, c).value.0, Mutate(s, c).value.1)
  {
    hide Mutate, Achieves;
    if c.BeginActivity? || c.BeginLifecycle? || c.BeginRunStopped? || c.BeginRecovery? || c.BeginRetry? {
      BeginAchieves(s, c);
    } else if c.CommitCompletion? || c.CloseUnstarted? || c.CloseWithReplay? || c.CloseFromCanonical?
              || c.CompleteRunStopped? || c.CompleteRecovery? {
      OutcomeAchieves(s, c);
    } else if c.Finalize? || c.CompleteRun? || c.FailRun? || c.CancelRun? {
      StopAchieves(s, c);
    } else if c.CommitFailure? || c.FailLinked? || c.ClassifyRun? {
      SettlingAchieves(s, c);
    } else {
      ControlAchieves(s, c);
    }
  }
}

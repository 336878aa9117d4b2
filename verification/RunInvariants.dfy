/**
 What every valid run log keeps, whatever sequence of events produced it: the shape of its activity
 records, the meaning of its status, and the agreement between the log and its projection.
 */
module RunInvariants {
  import opened Wrappers
  import opened RunLog

  // ---------------------------------------------------------------- replaying a log

  lemma {:induction false} RebuildIdentity(sessionId: string, runId: string, mode: Mode, events: seq<Event>)
    requires Rebuild(sessionId, runId, mode, events).Ok?
    ensures var s := Rebuild(sessionId, runId, mode, events).value;
            s.sessionId == sessionId && s.runId == runId && s.mode == mode && s.events == events
  {
    if |events| > 1 {
      RebuildIdentity(sessionId, runId, mode, events[..|events| - 1]);
    }
  }

  /** The state a valid run had when its log was one event shorter. */
  function Prior(s: RunState): (prior: RunState)
    requires Valid(s) && |s.events| > 1
    ensures Valid(prior) && prior.events == s.events[..|s.events| - 1]
    ensures prior.sessionId == s.sessionId && prior.runId == s.runId && prior.mode == s.mode
    ensures var last := s.events[|s.events| - 1];
            last.sequence == |s.events| && !IdUsed(prior.events, last.id)
            && Apply(s.runId, prior.projection, last.kind, |s.events|) == Ok(s.projection)
  {
    RebuildIdentity(s.sessionId, s.runId, s.mode, s.events[..|s.events| - 1]);
    Rebuild(s.sessionId, s.runId, s.mode, s.events[..|s.events| - 1]).value
  }

  lemma NewRunValid(sessionId: string, runId: string, mode: Mode)
    requires NewRun(sessionId, runId, mode).Ok?
    ensures Valid(NewRun(sessionId, runId, mode).value)
  {
  }

  lemma AppendValid(s: RunState, id: EventId, kind: EventKind)
    requires Valid(s) && Append(s, id, kind).Ok?
    ensures var t := Append(s, id, kind).value;
            Valid(t) && Extends(t, s) && |t.events| <= |s.events| + 1
  {
    var t := Append(s, id, kind).value;
    if t != s {
      assert t.events[..|t.events| - 1] == s.events;
    }
  }

  /** The state of a valid run at an earlier point of its log. */
  function At(s: RunState, n: nat): (t: RunState)
    requires Valid(s) && 1 <= n <= |s.events|
    ensures Valid(t) && t.events == s.events[..n]
    ensures t.sessionId == s.sessionId && t.runId == s.runId && t.mode == s.mode
    decreases |s.events|
  {
    if n == |s.events| then s else At(Prior(s), n)
  }

  /** A log determines its state, so equally long extensions of one log are the same run state. */
  lemma EqualLengthExtensionIsEqual(later: RunState, earlier: RunState)
    requires Valid(later) && Valid(earlier) && Extends(later, earlier)
    requires |later.events| == |earlier.events|
    ensures later == earlier
  {
    assert later.events == earlier.events;
  }

  lemma ExtendsItself(s: RunState)
    ensures Extends(s, s)
  {
  }

  lemma ExtendsTrans(a: RunState, b: RunState, c: RunState)
    requires Extends(b, a) && Extends(c, b)
    ensures Extends(c, a)
  {
  }

  lemma ValidSequences(s: RunState)
    requires Valid(s)
    ensures |s.events| >= 1 && LastSequence(s) == |s.events|
    ensures ValidIdentifier(s.runId) && ValidIdentifier(s.sessionId)
    decreases |s.events|
  {
    if |s.events| > 1 {
      ValidSequences(Prior(s));
    }
  }

  // ---------------------------------------------------------------- the shape of records

  predicate ReservedDefinitionOk(runId: string, a: ActivityId, d: Definition) {
    && IsReserved(a, d)
    && d.sideEffects == ReconcileRequired
    && match a.step
       case Lifecycle => d.input == LifecycleInput(runId, a.key) && ValidIdentifier(a.key)
       case RunStoppedAudit => a == CANONICAL_AUDIT && AuditIntentOk(runId, a, d, Canonical)
       case RecoveryAudit => AuditIntentOk(runId, a, d, Recovery)
       case _ => false
  }

  /** An invocation closes either as never started or with the envelope of its own RunStopped. */
  predicate LifecycleOutputOk(runId: string, a: ActivityId, output: Value) {
    match output
    case NotStarted(_, _) => true
    case AuditClosed(replay) => LifecycleReplayOk(runId, a, replay)
    case ReplayAuthorized(replay) => LifecycleReplayOk(runId, a, replay) && replay.kind != Direct
    case _ => false
  }

  predicate LifecycleReplayOk(runId: string, a: ActivityId, replay: Replay) {
    replay.auditRunId == runId && replay.invocationId == a.key && ValidReplay(replay, replay.kind)
  }

  /** Only the output announced by a reserved activity's intent is ever committed for it. */
  predicate OutputOk(runId: string, a: ActivityId, d: Definition, output: Value) {
    match a.step
    case Lifecycle => LifecycleOutputOk(runId, a, output)
    case RunStoppedAudit => d.input.AuditInput? && output == ExpectedOutput(d.input.replay)
    case RecoveryAudit => d.input.AuditInput? && output == ExpectedOutput(d.input.replay)
    case _ => true
  }

  predicate AttemptOk(runId: string, a: ActivityId, d: Definition, attempt: Attempt) {
    && (attempt.status == Completed ==> attempt.output.Some? && OutputOk(runId, a, d, attempt.output.value))
    && (!a.step.Ordinary? ==>
          && attempt.status != Cancelled
          && (attempt.status == Failed ==> a.step != Lifecycle && attempt.retryable && !attempt.effectAmbiguous))
  }

  predicate RecordOk(runId: string, a: ActivityId, r: Record) {
    && (!a.step.Ordinary? ==> ReservedDefinitionOk(runId, a, r.definition))
    && (a.step == Lifecycle ==> |r.attempts| <= 1)
    && (forall i :: 0 <= i < |r.attempts| ==> AttemptOk(runId, a, r.definition, r.attempts[i]))
    && (forall i :: 0 <= i < |r.attempts| - 1 ==> r.attempts[i].status != Running)
  }

  predicate RecordsOk(runId: string, p: Projection) {
    forall a :: a in p.activities ==> RecordOk(runId, a, p.activities[a])
  }

  lemma ControlKeepsActivities(p: Projection, kind: EventKind)
    requires !ActivityKind(kind) && ApplyControl(p, kind).Ok?
    ensures ApplyControl(p, kind).value.activities == p.activities
  {
  }

  lemma ActivityKeepsControl(runId: string, p: Projection, kind: EventKind, sequence: nat)
    requires ActivityKind(kind) && ApplyActivity(runId, p, kind, sequence).Ok?
    ensures var q := ApplyActivity(runId, p, kind, sequence).value;
            q.approvals == p.approvals && q.lease == p.lease && q.checkpoints == p.checkpoints
            && q.appState == p.appState
  {
  }

  lemma StartKeepsRecords(runId: string, p: Projection, a: ActivityId, n: nat, sequence: nat)
    requires RecordsOk(runId, p) && ApplyStarted(runId, p, a, n, sequence).Ok?
    ensures RecordsOk(runId, ApplyStarted(runId, p, a, n, sequence).value)
  {
    var q := ApplyStarted(runId, p, a, n, sequence).value;
    var r := p.activities[a];
    assert RecordOk(runId, a, r);
    assert RecordOk(runId, a, q.activities[a]);
  }

  lemma FinishKeepsRecords(runId: string, p: Projection, a: ActivityId, i: nat, attempt: Attempt)
    requires RecordsOk(runId, p) && a in p.activities && i < |p.activities[a].attempts|
    requires AttemptOk(runId, a, p.activities[a].definition, attempt) && attempt.status != Running
    ensures RecordsOk(runId, WithAttempt(p, a, i, attempt))
  {
    assert RecordOk(runId, a, p.activities[a]);
    assert RecordOk(runId, a, WithAttempt(p, a, i, attempt).activities[a]);
  }

  lemma ReconciliationRequiredKeepsRecords(runId: string, p: Projection, a: ActivityId, n: nat, reason: Note, sequence: nat)
    requires RecordsOk(runId, p) && ApplyReconciliationRequired(p, a, n, reason, sequence).Ok?
    ensures RecordsOk(runId, ApplyReconciliationRequired(p, a, n, reason, sequence).value)
  {
    var q := ApplyReconciliationRequired(p, a, n, reason, sequence).value;
    assert RecordOk(runId, a, p.activities[a]);
    assert RecordOk(runId, a, q.activities[a]);
  }

  lemma ScheduleKeepsRecords(runId: string, p: Projection, a: ActivityId, d: Definition, sequence: nat)
    requires RecordsOk(runId, p) && ApplyScheduled(runId, p, a, d, sequence).Ok?
    ensures RecordsOk(runId, ApplyScheduled(runId, p, a, d, sequence).value)
  {
    assert RecordOk(runId, a, ApplyScheduled(runId, p, a, d, sequence).value.activities[a]);
  }

  lemma CompletionKeepsRecords(runId: string, p: Projection, a: ActivityId, n: nat, output: Value, sequence: nat)
    requires RecordsOk(runId, p) && ApplyCompleted(runId, p, a, n, output, sequence).Ok?
    ensures RecordsOk(runId, ApplyCompleted(runId, p, a, n, output, sequence).value)
  {
    assert RecordOk(runId, a, p.activities[a]);
    FinishKeepsRecords(runId, p, a, n - 1, ApplyCompleted(runId, p, a, n, output, sequence).value.activities[a].attempts[n - 1]);
  }

  lemma ResolutionKeepsRecords(runId: string, p: Projection, a: ActivityId, n: nat, resolution: Resolution, sequence: nat)
    requires RecordsOk(runId, p) && ApplyReconciled(runId, p, a, n, resolution, sequence).Ok?
    ensures RecordsOk(runId, ApplyReconciled(runId, p, a, n, resolution, sequence).value)
  {
    assert RecordOk(runId, a, p.activities[a]);
    FinishKeepsRecords(runId, p, a, n - 1, Resolved(p.activities[a].attempts[n - 1], resolution, sequence));
  }

  lemma ApplyKeepsRecords(runId: string, p: Projection, kind: EventKind, sequence: nat)
    requires RecordsOk(runId, p) && Apply(runId, p, kind, sequence).Ok?
    ensures RecordsOk(runId, Apply(runId, p, kind, sequence).value)
  {
    hide ApplyScheduled, ApplyStarted, ApplyCompleted, ApplyReconciliationRequired, ApplyReconciled;
    if !ActivityKind(kind) {
      ControlKeepsActivities(p, kind);
    } else {
      match kind
      case ActivityScheduled(a, d) => ScheduleKeepsRecords(runId, p, a, d, sequence);
      case AttemptStarted(a, n) => StartKeepsRecords(runId, p, a, n, sequence);
      case AttemptCompleted(a, n, output) => CompletionKeepsRecords(runId, p, a, n, output, sequence);
      case AttemptFailed(a, n, error, retryable, ambiguous) =>
        assert RecordOk(runId, a, p.activities[a]);
        FinishKeepsRecords(runId, p, a, n - 1,
                           RunningAttempt(p, a, n).value.(status := Failed, finishedSequence := Some(sequence),
                           error := Some(error), retryable := retryable, effectAmbiguous := ambiguous));
      case AttemptCancelled(a, n, reason) =>
        assert RecordOk(runId, a, p.activities[a]);
        FinishKeepsRecords(runId, p, a, n - 1,
                           RunningAttempt(p, a, n).value.(status := Cancelled, finishedSequence := Some(sequence),
                           error := Some(reason), retryable := false, effectAmbiguous := false));
      case ReconciliationRequired(a, n, reason) =>
        ReconciliationRequiredKeepsRecords(runId, p, a, n, reason, sequence);
      case ActivityReconciled(a, n, resolution) => ResolutionKeepsRecords(runId, p, a, n, resolution, sequence);
    }
  }

  lemma {:induction false} ValidRecords(s: RunState)
    requires Valid(s)
    ensures RecordsOk(s.runId, s.projection)
    decreases |s.events|
  {
    if |s.events| > 1 {
      ValidRecords(Prior(s));
      ApplyKeepsRecords(s.runId, Prior(s).projection, s.events[|s.events| - 1].kind, |s.events|);
    }
  }

  lemma {:induction false} CompletedExactlyWhenSomeAttemptIs(runId: string, a: ActivityId, d: Definition, attempts: seq<Attempt>)
    requires forall i :: 0 <= i < |attempts| ==> AttemptOk(runId, a, d, attempts[i])
    ensures CompletedAmong(attempts).Some? <==> exists i :: 0 <= i < |attempts| && attempts[i].status == Completed
  {
    if attempts != [] {
      var rest := attempts[..|attempts| - 1];
      CompletedExactlyWhenSomeAttemptIs(runId, a, d, rest);
      if CompletedAmong(rest).Some? {
        var i :| 0 <= i < |rest| && rest[i].status == Completed;
        assert attempts[i].status == Completed;
      }
      assert forall i :: 0 <= i < |rest| ==> rest[i] == attempts[i];
    }
  }

  // ---------------------------------------------------------------- the meaning of the status

  predicate RunningIn(r: Record) {
    exists i :: 0 <= i < |r.attempts| && r.attempts[i].status == Running
  }

  predicate StatusOk(p: Projection) {
    && (Terminal(p.status) ==> !HasRunningAttempt(p) && ReservedAuditsClosed(p))
    && (HasPendingReconciliation(p) ==> p.status == ReconciliationPending || Terminal(p.status))
    && (p.status == Active ==> !HasPendingApproval(p))
    && (HasTerminalMarker(p) ==>
          forall a :: a in p.activities && a.step.Ordinary? ==> !RunningIn(p.activities[a]))
  }

  lemma ControlKeepsStatus(p: Projection, kind: EventKind)
    requires StatusOk(p) && !ActivityKind(kind) && ApplyControl(p, kind).Ok?
    ensures StatusOk(ApplyControl(p, kind).value)
  {
    ControlKeepsActivities(p, kind);
    var q := ApplyControl(p, kind).value;
    assert HasPendingReconciliation(q) == HasPendingReconciliation(p);
    assert HasTerminalMarker(q) == HasTerminalMarker(p);
    assert HasRunningAttempt(q) == HasRunningAttempt(p);
    assert ReservedAuditsClosed(q) == ReservedAuditsClosed(p);
  }

  /** An attempt that finishes without having been completed leaves every committed output in place. */
  lemma FinishKeepsOutput(runId: string, a: ActivityId, before: Record, i: nat, attempt: Attempt)
    requires RecordOk(runId, a, before) && i < |before.attempts|
    requires AttemptOk(runId, a, before.definition, attempt) && before.attempts[i].status != Completed
    ensures CompletedOutput(before).Some? ==> CompletedOutput(before.(attempts := before.attempts[i := attempt])).Some?
  {
    hide OutputOk, ReservedDefinitionOk;
    var after := before.attempts[i := attempt];
    CompletedExactlyWhenSomeAttemptIs(runId, a, before.definition, before.attempts);
    CompletedExactlyWhenSomeAttemptIs(runId, a, before.definition, after);
    if k :| 0 <= k < |before.attempts| && before.attempts[k].status == Completed {
      assert after[k].status == Completed;
    }
  }

  lemma FinishKeepsAuditsClosed(runId: string, p: Projection, a: ActivityId, i: nat, attempt: Attempt)
    requires RecordsOk(runId, p) && a in p.activities && i < |p.activities[a].attempts|
    requires AttemptOk(runId, a, p.activities[a].definition, attempt)
    requires p.activities[a].attempts[i].status != Completed && ReservedAuditsClosed(p)
    ensures ReservedAuditsClosed(WithAttempt(p, a, i, attempt))
  {
    hide OutputOk, ReservedDefinitionOk, CompletedOutput, AttemptOk, IsReserved;
    assert RecordOk(runId, a, p.activities[a]);
    FinishKeepsOutput(runId, a, p.activities[a], i, attempt);
  }

  lemma FinishStartsNothing(p: Projection, a: ActivityId, i: nat, attempt: Attempt)
    requires a in p.activities && i < |p.activities[a].attempts| && attempt.status != Running
    ensures var q := WithAttempt(p, a, i, attempt);
            && (!HasRunningAttempt(p) ==> !HasRunningAttempt(q))
            && forall b :: b in q.activities && RunningIn(q.activities[b]) ==> RunningIn(p.activities[b])
  {
    var q := WithAttempt(p, a, i, attempt);
    forall b, k | b in q.activities && 0 <= k < |q.activities[b].attempts| && q.activities[b].attempts[k].status == Running
      ensures p.activities[b].attempts[k].status == Running
    {
    }
  }

  lemma FinishKeepsMarker(p: Projection, a: ActivityId, i: nat, attempt: Attempt)
    requires a in p.activities && i < |p.activities[a].attempts|
    ensures HasTerminalMarker(WithAttempt(p, a, i, attempt)) == HasTerminalMarker(p)
  {
    hide IsReserved;
    var q := WithAttempt(p, a, i, attempt);
    assert forall b :: b in p.activities <==> b in q.activities;
    assert forall b :: b in p.activities ==> p.activities[b].definition == q.activities[b].definition;
  }

  lemma FinishKeepsStatus(runId: string, p: Projection, a: ActivityId, i: nat, attempt: Attempt)
    requires RecordsOk(runId, p) && StatusOk(p) && a in p.activities && i < |p.activities[a].attempts|
    requires AttemptOk(runId, a, p.activities[a].definition, attempt) && attempt.status != Running && attempt.status != NeedsReconciliation
    requires p.activities[a].attempts[i].status != Completed
    ensures StatusOk(WithAttempt(p, a, i, attempt))
  {
    hide OutputOk, ReservedDefinitionOk, IsReserved, CompletedOutput, AttemptOk, RecordOk;
    var q := WithAttempt(p, a, i, attempt);
    FinishStartsNothing(p, a, i, attempt);
    FinishKeepsMarker(p, a, i, attempt);
    if ReservedAuditsClosed(p) {
      FinishKeepsAuditsClosed(runId, p, a, i, attempt);
    }
    if HasPendingReconciliation(q) {
      var b :| b in q.activities && LatestIs(q.activities[b], NeedsReconciliation);
      assert LatestIs(p.activities[b], NeedsReconciliation);
    }
  }

  lemma ScheduleKeepsStatus(runId: string, p: Projection, a: ActivityId, d: Definition, sequence: nat)
    requires StatusOk(p) && RecordsOk(runId, p) && ApplyScheduled(runId, p, a, d, sequence).Ok?
    ensures StatusOk(ApplyScheduled(runId, p, a, d, sequence).value)
  {
    var q := ApplyScheduled(runId, p, a, d, sequence).value;
    assert forall b :: b in q.activities && b != a ==> b in p.activities && q.activities[b] == p.activities[b];
    if HasTerminalMarker(q) {
      forall b | b in q.activities && b.step.Ordinary?
        ensures !RunningIn(q.activities[b])
      {
        if b != a {
          assert RecordOk(runId, b, p.activities[b]);
          assert RunningIn(p.activities[b]) ==> LatestIs(p.activities[b], Running);
        }
      }
    }
  }

  lemma StartKeepsStatus(runId: string, p: Projection, a: ActivityId, n: nat, sequence: nat)
    requires StatusOk(p) && RecordsOk(runId, p) && ApplyStarted(runId, p, a, n, sequence).Ok?
    ensures StatusOk(ApplyStarted(runId, p, a, n, sequence).value)
  {
    hide RecordOk, AttemptStartOk, CompletedOutput, IsReserved;
    var q := ApplyStarted(runId, p, a, n, sequence).value;
    assert !HasPendingReconciliation(p);
    forall b | b in q.activities
      ensures !LatestIs(q.activities[b], NeedsReconciliation)
    {
      assert b != a ==> q.activities[b] == p.activities[b];
    }
    StartRespectsMarker(runId, p, a, n, sequence);
  }

  /** Starting an attempt introduces no terminal marker, and beside one it starts no ordinary work. */
  lemma StartRespectsMarker(runId: string, p: Projection, a: ActivityId, n: nat, sequence: nat)
    requires StatusOk(p) && ApplyStarted(runId, p, a, n, sequence).Ok?
    ensures var q := ApplyStarted(runId, p, a, n, sequence).value;
            HasTerminalMarker(q) ==> forall b :: b in q.activities && b.step.Ordinary? ==> !RunningIn(q.activities[b])
  {
    hide AttemptStartOk, CompletedOutput, HasPendingReconciliation, HasRunningAttempt, ReservedAuditsClosed;
    var q := ApplyStarted(runId, p, a, n, sequence).value;
    if HasTerminalMarker(q) {
      var m :| m in q.activities && (m.step == RunStoppedAudit || m.step == RecoveryAudit)
        && IsReserved(m, q.activities[m].definition);
      assert m in p.activities && IsReserved(m, p.activities[m].definition);
      assert HasTerminalMarker(p);
    }
  }

  /** Same definitions and no attempt newly running: the marker still excludes ordinary work. */
  lemma QuietKeepsBoundary(p: Projection, q: Projection)
    requires StatusOk(p) && p.activities.Keys == q.activities.Keys
    requires forall a :: a in q.activities ==> p.activities[a].definition == q.activities[a].definition
    requires forall a :: a in q.activities && RunningIn(q.activities[a]) ==> RunningIn(p.activities[a])
    ensures HasTerminalMarker(q) ==>
              forall a :: a in q.activities && a.step.Ordinary? ==> !RunningIn(q.activities[a])
  {
    if HasTerminalMarker(q) {
      var m :| m in q.activities && (m.step == RunStoppedAudit || m.step == RecoveryAudit)
        && IsReserved(m, q.activities[m].definition);
      assert m in p.activities && IsReserved(m, p.activities[m].definition);
      assert HasTerminalMarker(p);
    }
  }

  lemma ReconciliationRequiredKeepsStatus(runId: string, p: Projection, a: ActivityId, n: nat, reason: Note, sequence: nat)
    requires StatusOk(p) && RecordsOk(runId, p) && ApplyReconciliationRequired(p, a, n, reason, sequence).Ok?
    ensures StatusOk(ApplyReconciliationRequired(p, a, n, reason, sequence).value)
  {
    hide RecordOk, IsReserved;
    var q := ApplyReconciliationRequired(p, a, n, reason, sequence).value;
    var before, after := p.activities[a].attempts, q.activities[a].attempts;
    forall b | b in q.activities && RunningIn(q.activities[b])
      ensures RunningIn(p.activities[b])
    {
      var k :| 0 <= k < |q.activities[b].attempts| && q.activities[b].attempts[k].status == Running;
      assert b == a ==> k < |before| && before[k] == after[k];
      assert p.activities[b].attempts[k].status == Running;
    }
    QuietKeepsBoundary(p, q);
  }

  lemma ReconciledKeepsStatus(runId: string, p: Projection, a: ActivityId, n: nat, resolution: Resolution, sequence: nat)
    requires StatusOk(p) && RecordsOk(runId, p) && ApplyReconciled(runId, p, a, n, resolution, sequence).Ok?
    ensures StatusOk(ApplyReconciled(runId, p, a, n, resolution, sequence).value)
  {
    assert RecordOk(runId, a, p.activities[a]);
    var resolved := Resolved(p.activities[a].attempts[n - 1], resolution, sequence);
    FinishKeepsStatus(runId, p, a, n - 1, resolved);
    var q := WithAttempt(p, a, n - 1, resolved);
    var paused := PauseIfReconciled(q);
    assert HasTerminalMarker(paused) == HasTerminalMarker(q);
    assert HasPendingReconciliation(paused) == HasPendingReconciliation(q);
    assert HasRunningAttempt(paused) == HasRunningAttempt(q);
  }

  lemma ApplyKeepsStatus(runId: string, p: Projection, kind: EventKind, sequence: nat)
    requires RecordsOk(runId, p) && StatusOk(p) && Apply(runId, p, kind, sequence).Ok?
    ensures StatusOk(Apply(runId, p, kind, sequence).value)
  {
    hide ApplyScheduled, ApplyStarted, ApplyReconciliationRequired, ApplyReconciled, StatusOk;
    if !ActivityKind(kind) {
      ControlKeepsStatus(p, kind);
    } else {
      match kind
      case ActivityScheduled(a, d) => ScheduleKeepsStatus(runId, p, a, d, sequence);
      case AttemptStarted(a, n) => StartKeepsStatus(runId, p, a, n, sequence);
      case AttemptCompleted(a, n, output) =>
        assert RecordOk(runId, a, p.activities[a]);
        FinishKeepsStatus(runId, p, a, n - 1,
                          RunningAttempt(p, a, n).value.(status := Completed, finishedSequence := Some(sequence),
                          output := Some(output)));
      case AttemptFailed(a, n, error, retryable, ambiguous) =>
        assert RecordOk(runId, a, p.activities[a]);
        FinishKeepsStatus(runId, p, a, n - 1,
                          RunningAttempt(p, a, n).value.(status := Failed, finishedSequence := Some(sequence),
                          error := Some(error), retryable := retryable, effectAmbiguous := ambiguous));
      case AttemptCancelled(a, n, reason) =>
        assert RecordOk(runId, a, p.activities[a]);
        FinishKeepsStatus(runId, p, a, n - 1,
                          RunningAttempt(p, a, n).value.(status := Cancelled, finishedSequence := Some(sequence),
                          error := Some(reason), retryable := false, effectAmbiguous := false));
      case ReconciliationRequired(a, n, reason) =>
        ReconciliationRequiredKeepsStatus(runId, p, a, n, reason, sequence);
      case ActivityReconciled(a, n, resolution) => ReconciledKeepsStatus(runId, p, a, n, resolution, sequence);
    }
  }

  lemma {:induction false} ValidStatus(s: RunState)
    requires Valid(s)
    ensures StatusOk(s.projection)
    decreases |s.events|
  {
    if |s.events| > 1 {
      ValidStatus(Prior(s));
      ValidRecords(Prior(s));
      ApplyKeepsStatus(s.runId, Prior(s).projection, s.events[|s.events| - 1].kind, |s.events|);
    }
  }
}

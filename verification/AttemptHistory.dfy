/**
 The agreement between a run's log and its projected attempts, and what follows from it: an
 activity whose effect may not be repeated is never started twice without evidence in between.
 */
module AttemptHistory {
  import opened Wrappers
  import opened RunLog
  import opened RunInvariants

  /** Attempt `n` of `a` is recorded as having had no effect, or as safe to repeat. */
  predicate RetryEvidence(kind: EventKind, a: ActivityId, n: nat) {
    || (kind.AttemptFailed? && kind.failed == a && kind.failedAttempt == n && kind.retryable && !kind.effectAmbiguous)
    || kind == ActivityReconciled(a, n, SafeToRetry)
  }

  ghost predicate EvidenceBetween(events: seq<Event>, a: ActivityId, n: nat, lo: int, hi: int) {
    exists k :: 0 <= k < |events| && lo < k < hi && RetryEvidence(events[k].kind, a, n)
  }

  predicate HasAttempt(p: Projection, a: ActivityId, n: nat) {
    a in p.activities && 1 <= n <= |p.activities[a].attempts|
  }

  ghost predicate EventAgrees(e: Event, p: Projection) {
    && (e.kind.ActivityScheduled? ==> e.kind.scheduled in p.activities)
    && (e.kind.CheckpointCommitted? ==> e.kind.checkpointId in p.checkpoints)
    && (e.kind.AttemptStarted? ==>
          && HasAttempt(p, e.kind.started, e.kind.startedAttempt)
          && p.activities[e.kind.started].attempts[e.kind.startedAttempt - 1].startedSequence == e.sequence)
    && (e.kind.AttemptCompleted? ==>
          && HasAttempt(p, e.kind.completed, e.kind.completedAttempt)
          && var attempt := p.activities[e.kind.completed].attempts[e.kind.completedAttempt - 1];
          attempt.status == Completed && attempt.output == Some(e.kind.output))
    && (e.kind.ActivityReconciled? && e.kind.resolution.ResolvedCompleted? ==>
          && HasAttempt(p, e.kind.reconciled, e.kind.reconciledAttempt)
          && var attempt := p.activities[e.kind.reconciled].attempts[e.kind.reconciledAttempt - 1];
          attempt.status == Completed && attempt.output == Some(e.kind.resolution.output))
    && (forall a, n :: Settles(e.kind, a, n) ==>
          HasAttempt(p, a, n) && p.activities[a].attempts[n - 1].status != Running)
  }

  ghost predicate LogAgrees(events: seq<Event>, p: Projection) {
    forall i :: 0 <= i < |events| ==> events[i].sequence == i + 1 && EventAgrees(events[i], p)
  }

  /** Every attempt started inside the log, in order, and each repetition has its evidence. */
  ghost predicate RecordHistory(events: seq<Event>, a: ActivityId, r: Record) {
    && (forall i :: 0 <= i < |r.attempts| ==> 1 <= r.attempts[i].startedSequence <= |events|)
    && (forall i, j :: 0 <= i < j < |r.attempts| ==> r.attempts[i].startedSequence < r.attempts[j].startedSequence)
    && (forall i :: 0 <= i < |r.attempts| && r.attempts[i].status == Failed && r.attempts[i].retryable
                    && !r.attempts[i].effectAmbiguous
                    ==> EvidenceBetween(events, a, i + 1, r.attempts[i].startedSequence - 1, |events|))
    && (r.definition.sideEffects == ReconcileRequired ==>
          forall i :: 0 <= i < |r.attempts| - 1 ==>
            EvidenceBetween(events, a, i + 1, r.attempts[i].startedSequence - 1, r.attempts[i + 1].startedSequence - 1))
  }

  ghost predicate HistoryOk(events: seq<Event>, p: Projection) {
    forall a :: a in p.activities ==> RecordHistory(events, a, p.activities[a])
  }

  // ---------------------------------------------------------------- the log agrees with the projection

  /** Attempts only ever accumulate, keep their start, never run again, and stay completed as they were. */
  predicate Progresses(p: Projection, q: Projection) {
    && p.checkpoints <= q.checkpoints
    && (forall a :: a in p.activities ==>
          && a in q.activities
          && q.activities[a].definition == p.activities[a].definition
          && |p.activities[a].attempts| <= |q.activities[a].attempts|)
    && (forall a, i :: a in p.activities && 0 <= i < |p.activities[a].attempts| ==>
          && q.activities[a].attempts[i].startedSequence == p.activities[a].attempts[i].startedSequence
          && (p.activities[a].attempts[i].status != Running ==> q.activities[a].attempts[i].status != Running)
          && (p.activities[a].attempts[i].status == Completed ==>
                q.activities[a].attempts[i] == p.activities[a].attempts[i]))
  }

  lemma SettleProgresses(p: Projection, a: ActivityId, i: nat, attempt: Attempt)
    requires a in p.activities && i < |p.activities[a].attempts|
    requires attempt.startedSequence == p.activities[a].attempts[i].startedSequence && attempt.status != Running
    requires p.activities[a].attempts[i].status != Completed
    ensures Progresses(p, WithAttempt(p, a, i, attempt))
  {
  }

  lemma PushProgresses(p: Projection, a: ActivityId, attempt: Attempt)
    requires a in p.activities
    ensures Progresses(p, WithNewAttempt(p, a, attempt))
  {
  }

  lemma ReconciliationRequiredProgresses(p: Projection, a: ActivityId, n: nat, reason: Note, sequence: nat)
    requires ApplyReconciliationRequired(p, a, n, reason, sequence).Ok?
    ensures Progresses(p, ApplyReconciliationRequired(p, a, n, reason, sequence).value)
  {
    var q := ApplyReconciliationRequired(p, a, n, reason, sequence).value;
    if p.activities[a].attempts == [] {
      PushProgresses(p, a, q.activities[a].attempts[0]);
    } else {
      SettleProgresses(p, a, n - 1, q.activities[a].attempts[n - 1]);
    }
  }

  lemma ActivityProgresses(runId: string, p: Projection, kind: EventKind, sequence: nat)
    requires ActivityKind(kind) && !kind.ActivityReconciled? && ApplyActivity(runId, p, kind, sequence).Ok?
    ensures Progresses(p, ApplyActivity(runId, p, kind, sequence).value)
  {
    var q := ApplyActivity(runId, p, kind, sequence).value;
    match kind
    case ActivityScheduled(a, d) =>
    case AttemptStarted(a, n) =>
      PushProgresses(p, a, Attempt(Running, sequence, None, None, None, false, false));
    case AttemptCompleted(a, n, output) => SettleProgresses(p, a, n - 1, q.activities[a].attempts[n - 1]);
    case AttemptFailed(a, n, _, _, _) => SettleProgresses(p, a, n - 1, q.activities[a].attempts[n - 1]);
    case AttemptCancelled(a, n, _) => SettleProgresses(p, a, n - 1, q.activities[a].attempts[n - 1]);
    case ReconciliationRequired(a, n, reason) => ReconciliationRequiredProgresses(p, a, n, reason, sequence);
  }

  lemma ApplyProgresses(runId: string, p: Projection, kind: EventKind, sequence: nat)
    requires Apply(runId, p, kind, sequence).Ok?
    ensures Progresses(p, Apply(runId, p, kind, sequence).value)
  {
    if !ActivityKind(kind) {
      ControlKeepsActivities(p, kind);
    } else if kind.ActivityReconciled? {
      var a, n := kind.reconciled, kind.reconciledAttempt;
      SettleProgresses(p, a, n - 1, Resolved(p.activities[a].attempts[n - 1], kind.resolution, sequence));
    } else {
      ActivityProgresses(runId, p, kind, sequence);
    }
  }

  lemma AgreementIsKept(e: Event, p: Projection, q: Projection)
    requires EventAgrees(e, p) && Progresses(p, q)
    ensures EventAgrees(e, q)
  {
    if e.kind.AttemptStarted? {
      var a, i := e.kind.started, e.kind.startedAttempt - 1;
      assert q.activities[a].attempts[i].startedSequence == p.activities[a].attempts[i].startedSequence;
    }
    if e.kind.AttemptCompleted? {
      var a, i := e.kind.completed, e.kind.completedAttempt - 1;
      assert p.activities[a].attempts[i].status == Completed;
    }
    if e.kind.ActivityReconciled? && e.kind.resolution.ResolvedCompleted? {
      var a, i := e.kind.reconciled, e.kind.reconciledAttempt - 1;
      assert p.activities[a].attempts[i].status == Completed;
    }
    forall a, n | Settles(e.kind, a, n)
      ensures HasAttempt(q, a, n) && q.activities[a].attempts[n - 1].status != Running
    {
      assert p.activities[a].attempts[n - 1].status != Running;
    }
  }

  lemma NewEventAgrees(runId: string, p: Projection, e: Event)
    requires Apply(runId, p, e.kind, e.sequence).Ok?
    ensures EventAgrees(e, Apply(runId, p, e.kind, e.sequence).value)
  {
  }

  lemma {:induction false} ValidLogAgrees(s: RunState)
    requires Valid(s)
    ensures LogAgrees(s.events, s.projection)
    decreases |s.events|
  {
    if |s.events| > 1 {
      var prior := Prior(s);
      var last := s.events[|s.events| - 1];
      ValidLogAgrees(prior);
      ApplyProgresses(s.runId, prior.projection, last.kind, |s.events|);
      NewEventAgrees(s.runId, prior.projection, last);
      forall i | 0 <= i < |s.events|
        ensures s.events[i].sequence == i + 1 && EventAgrees(s.events[i], s.projection)
      {
        if i < |prior.events| {
          assert s.events[i] == prior.events[i];
          AgreementIsKept(prior.events[i], prior.projection, s.projection);
        }
      }
    }
  }

  // ---------------------------------------------------------------- evidence for every repetition

  lemma EvidenceGrows(events: seq<Event>, e: Event, a: ActivityId, n: nat, lo: int, hi: int, hi': int)
    requires EvidenceBetween(events, a, n, lo, hi) && hi <= hi'
    ensures EvidenceBetween(events + [e], a, n, lo, hi')
  {
    var k :| 0 <= k < |events| && lo < k < hi && RetryEvidence(events[k].kind, a, n);
    assert (events + [e])[k] == events[k];
  }

  /** A record that an event leaves alone keeps its history. */
  lemma HistoryGrows(events: seq<Event>, e: Event, a: ActivityId, r: Record)
    requires RecordHistory(events, a, r)
    ensures RecordHistory(events + [e], a, r)
  {
    forall i | 0 <= i < |r.attempts| && r.attempts[i].status == Failed && r.attempts[i].retryable
               && !r.attempts[i].effectAmbiguous
      ensures EvidenceBetween(events + [e], a, i + 1, r.attempts[i].startedSequence - 1, |events + [e]|)
    {
      EvidenceGrows(events, e, a, i + 1, r.attempts[i].startedSequence - 1, |events|, |events + [e]|);
    }
    if r.definition.sideEffects == ReconcileRequired {
      forall i | 0 <= i < |r.attempts| - 1
        ensures EvidenceBetween(events + [e], a, i + 1, r.attempts[i].startedSequence - 1,
                                r.attempts[i + 1].startedSequence - 1)
      {
        EvidenceGrows(events, e, a, i + 1, r.attempts[i].startedSequence - 1, r.attempts[i + 1].startedSequence - 1,
                      r.attempts[i + 1].startedSequence - 1);
      }
    }
  }

  lemma PushKeepsHistory(events: seq<Event>, e: Event, a: ActivityId, r: Record, attempt: Attempt)
    requires RecordHistory(events, a, r)
    requires attempt.startedSequence == |events| + 1 && attempt.status != Failed
    requires r.attempts != [] && r.definition.sideEffects == ReconcileRequired ==> RetryAuthorized(r)
    ensures RecordHistory(events + [e], a, r.(attempts := r.attempts + [attempt]))
  {
    hide EvidenceBetween;
    HistoryGrows(events, e, a, r);
    var log := events + [e];
    var q := r.(attempts := r.attempts + [attempt]);
    var n := |r.attempts|;
    if r.attempts != [] && r.definition.sideEffects == ReconcileRequired {
      EvidenceGrows(events, e, a, n, r.attempts[n - 1].startedSequence - 1, |events|, |events|);
    }
    forall i | 0 <= i < |q.attempts| - 1 && r.definition.sideEffects == ReconcileRequired
      ensures EvidenceBetween(log, a, i + 1, q.attempts[i].startedSequence - 1, q.attempts[i + 1].startedSequence - 1)
    {
      if i < n - 1 {
        assert q.attempts[i] == r.attempts[i] && q.attempts[i + 1] == r.attempts[i + 1];
      }
    }
  }

  lemma SettleKeepsHistory(events: seq<Event>, e: Event, a: ActivityId, r: Record, i: nat, attempt: Attempt)
    requires RecordHistory(events, a, r) && i < |r.attempts|
    requires attempt.startedSequence == r.attempts[i].startedSequence
    requires attempt.status == Failed && attempt.retryable && !attempt.effectAmbiguous ==> RetryEvidence(e.kind, a, i + 1)
    ensures RecordHistory(events + [e], a, r.(attempts := r.attempts[i := attempt]))
  {
    hide RetryEvidence;
    HistoryGrows(events, e, a, r);
    var log := events + [e];
    var q := r.(attempts := r.attempts[i := attempt]);
    assert log[|events|] == e;
    forall j | 0 <= j < |q.attempts| && q.attempts[j].status == Failed && q.attempts[j].retryable
               && !q.attempts[j].effectAmbiguous
      ensures EvidenceBetween(log, a, j + 1, q.attempts[j].startedSequence - 1, |log|)
    {
      if j != i {
        assert q.attempts[j] == r.attempts[j];
      } else {
        assert RetryEvidence(log[|events|].kind, a, i + 1);
      }
    }
    if r.definition.sideEffects == ReconcileRequired {
      forall j | 0 <= j < |q.attempts| - 1
        ensures EvidenceBetween(log, a, j + 1, q.attempts[j].startedSequence - 1, q.attempts[j + 1].startedSequence - 1)
      {
        assert q.attempts[j].startedSequence == r.attempts[j].startedSequence;
        assert q.attempts[j + 1].startedSequence == r.attempts[j + 1].startedSequence;
      }
    }
  }

  /** The history of the one record that an activity event touches. */
  lemma TouchedKeepsHistory(runId: string, events: seq<Event>, p: Projection, e: Event, a: ActivityId)
    requires HistoryOk(events, p) && e.sequence == |events| + 1
    requires ActivityKind(e.kind) && Apply(runId, p, e.kind, e.sequence).Ok?
    requires Subject(e.kind) == a
    ensures var q := Apply(runId, p, e.kind, e.sequence).value;
            a in q.activities && RecordHistory(events + [e], a, q.activities[a])
  {
    hide CompletionOk, ReconciliationOk, ReservedScheduleOk, AttemptStartOk, HasTerminalMarker, IsReserved;
    hide EvidenceBetween, HasPendingReconciliation;
    var q := Apply(runId, p, e.kind, e.sequence).value;
    if !e.kind.ActivityScheduled? {
      hide RecordHistory;
      var r := p.activities[a];
      if e.kind.AttemptStarted? {
        PushKeepsHistory(events, e, a, r, Attempt(Running, e.sequence, None, None, None, false, false));
      } else if e.kind.ReconciliationRequired? && r.attempts == [] {
        PushKeepsHistory(events, e, a, r, q.activities[a].attempts[0]);
        assert q.activities[a].attempts == r.attempts + [q.activities[a].attempts[0]];
      } else {
        var n := TouchedAttempt(e.kind);
        SettleKeepsHistory(events, e, a, r, n - 1, q.activities[a].attempts[n - 1]);
      }
    }
  }

  function TouchedAttempt(kind: EventKind): nat
    requires ActivityKind(kind) && !kind.ActivityScheduled?
  {
    match kind
    case AttemptStarted(_, n) => n
    case AttemptCompleted(_, n, _) => n
    case AttemptFailed(_, n, _, _, _) => n
    case AttemptCancelled(_, n, _) => n
    case ReconciliationRequired(_, n, _) => n
    case ActivityReconciled(_, n, _) => n
  }

  lemma ApplyKeepsHistory(runId: string, events: seq<Event>, p: Projection, e: Event)
    requires HistoryOk(events, p) && e.sequence == |events| + 1
    requires Apply(runId, p, e.kind, e.sequence).Ok?
    ensures HistoryOk(events + [e], Apply(runId, p, e.kind, e.sequence).value)
  {
    hide RecordHistory, CompletionOk, ReconciliationOk, ReservedScheduleOk, AttemptStartOk, HasTerminalMarker, IsReserved;
    var q := Apply(runId, p, e.kind, e.sequence).value;
    forall a | a in q.activities
      ensures RecordHistory(events + [e], a, q.activities[a])
    {
      if ActivityKind(e.kind) && Subject(e.kind) == a {
        TouchedKeepsHistory(runId, events, p, e, a);
      } else {
        HistoryGrows(events, e, a, p.activities[a]);
        if !ActivityKind(e.kind) {
          ControlKeepsActivities(p, e.kind);
        }
      }
    }
  }

  lemma {:induction false} ValidHistory(s: RunState)
    requires Valid(s)
    ensures HistoryOk(s.events, s.projection)
    decreases |s.events|
  {
    if |s.events| > 1 {
      var prior := Prior(s);
      var last := s.events[|s.events| - 1];
      ValidHistory(prior);
      ApplyKeepsHistory(s.runId, prior.events, prior.projection, last);
      assert prior.events + [last] == s.events;
    }
  }

  /**
   Two starts of one reconcile-required activity, anywhere in any valid log, are separated by a
   persisted unambiguous retryable failure or an explicit SafeToRetry of the earlier attempt.
   */
  lemma UnsafeEffectsStartAtMostOnce(s: RunState, i: nat, j: nat, a: ActivityId, m: nat, n: nat)
    requires Valid(s) && i < j < |s.events|
    requires s.events[i].kind == AttemptStarted(a, m) && s.events[j].kind == AttemptStarted(a, n)
    requires a in s.projection.activities
    requires s.projection.activities[a].definition.sideEffects == ReconcileRequired
    ensures m < n && EvidenceBetween(s.events, a, m, i, j)
  {
    hide Valid, RecordHistory, RetryEvidence;
    ValidLogAgrees(s);
    ValidHistory(s);
    var r := s.projection.activities[a];
    assert EventAgrees(s.events[i], s.projection) && EventAgrees(s.events[j], s.projection);
    LaterAttemptHasEvidence(s.events, a, r, m - 1, n - 1);
  }

  /** In a record with a proper history, an attempt that started later is a later one and had evidence. */
  lemma LaterAttemptHasEvidence(events: seq<Event>, a: ActivityId, r: Record, i: nat, j: nat)
    requires RecordHistory(events, a, r) && r.definition.sideEffects == ReconcileRequired
    requires i < |r.attempts| && j < |r.attempts| && r.attempts[i].startedSequence < r.attempts[j].startedSequence
    ensures i < j
    ensures EvidenceBetween(events, a, i + 1, r.attempts[i].startedSequence - 1, r.attempts[j].startedSequence - 1)
  {
    hide RetryEvidence;
    assert r.attempts[i + 1].startedSequence <= r.attempts[j].startedSequence;
    assert EvidenceBetween(events, a, i + 1, r.attempts[i].startedSequence - 1, r.attempts[i + 1].startedSequence - 1);
  }
}

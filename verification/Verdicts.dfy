/**
 What the restart classification answers, told by the state it leaves behind and nothing else: every
 verdict is given in exactly the states it is for.
 */
module Verdicts {
  import opened Wrappers
  import opened RunLog
  import opened RunInvariants
  import opened Disposition
  import opened DispositionFacts

  /** A terminal audit that was scheduled and whose delivery is not committed. */
  predicate Undelivered(p: Projection, a: ActivityId) {
    a in p.activities && (a.step == RunStoppedAudit || a.step == RecoveryAudit) && CompletedOutput(p.activities[a]).None?
  }

  predicate SomeUndelivered(p: Projection, step: Step) {
    exists a :: a in p.activities && a.step == step && Undelivered(p, a)
  }

  /** A run that may go on: nothing is ambiguous and nobody has to resume it. */
  predicate Unobstructed(p: Projection) {
    !Blocked(p) && p.status != Paused
  }

  /** An undelivered audit of a settled run that is not blocked failed without effect: it may be retried. */
  lemma UndeliveredIsRetryable(s: RunState, active: Option<string>, a: ActivityId)
    requires Valid(s) && !Blocked(s.projection) && AllSettled(active, s.projection) && Undelivered(s.projection, a)
    ensures RetryAuthorized(s.projection.activities[a]) && !Terminal(s.projection.status)
    ensures IsReserved(a, s.projection.activities[a].definition)
    ensures a.step == RunStoppedAudit ==> a == CANONICAL_AUDIT
  {
    hide Valid, AuditIntentOk, OutputOk;
    ValidRecords(s);
    ValidStatus(s);
    var r := s.projection.activities[a];
    assert RecordOk(s.runId, a, r) && Settled(active, a, r);
    assert AttemptOk(s.runId, a, r.definition, r.attempts[|r.attempts| - 1]);
    assert !LatestIs(r, NeedsReconciliation);
  }

  /** The first open recovery audit in iteration order, if some is open. */
  lemma OpenRecoveryIsUndelivered(s: RunState, order: seq<ActivityId>)
    requires Valid(s) && Enumerates(order, s.projection.activities)
    ensures var open := OpenRecovery(s.projection.activities, order);
            && (open.Some? <==> SomeUndelivered(s.projection, RecoveryAudit))
            && (open.Some? ==> open.value.step == RecoveryAudit && Undelivered(s.projection, open.value))
  {
    hide Valid, AuditIntentOk, OutputOk;
    ValidRecords(s);
    OpenRecoveryFinds(s.projection.activities, order);
    forall a | a in s.projection.activities && a.step == RecoveryAudit
      ensures IsReserved(a, s.projection.activities[a].definition)
    {
      assert RecordOk(s.runId, a, s.projection.activities[a]);
    }
  }

  /** The audit a retry verdict is about: an open recovery audit if there is one, else the canonical one. */
  predicate RetryFor(p: Projection, replay: Replay, a: ActivityId) {
    && Undelivered(p, a) && RetryAuthorized(p.activities[a])
    && p.activities[a].definition.input.AuditInput? && p.activities[a].definition.input.replay == replay
    && (if SomeUndelivered(p, RecoveryAudit) then a.step == RecoveryAudit else a == CANONICAL_AUDIT)
  }

  /** What each verdict says about the state it was given in. */
  predicate VerdictFits(p: Projection, v: Verdict) {
    match v
    case ReconcileRun(_) => Blocked(p)
    case AwaitingResume(reason) => !Blocked(p) && p.status == Paused && reason == p.pauseReason
    case RetryTerminalAudit(replay) =>
      Unobstructed(p) && p.status == Active && exists a :: a in p.activities && RetryFor(p, replay, a)
    case FinalizeTerminal(receipt) =>
      && Unobstructed(p) && !SomeUndelivered(p, RecoveryAudit)
      && CANONICAL_AUDIT in p.activities && CompletedOutput(p.activities[CANONICAL_AUDIT]) == Some(ReceiptValue(receipt))
    case AlreadyTerminal(status, reason) =>
      && Unobstructed(p) && !SomeUndelivered(p, RecoveryAudit) && CANONICAL_AUDIT !in p.activities
      && Terminal(p.status) && status == p.status && reason == p.pauseReason
    case ExecuteRun =>
      && Unobstructed(p) && !SomeUndelivered(p, RecoveryAudit) && CANONICAL_AUDIT !in p.activities
      && p.status == Active
  }

  lemma VerdictForFits(s: RunState, active: Option<string>, reason: Note, order: seq<ActivityId>)
    requires Valid(s) && AllSettled(active, s.projection) && Enumerates(order, s.projection.activities)
    requires VerdictFor(s, Blocked(s.projection), reason, order).Ok?
    ensures VerdictFits(s.projection, VerdictFor(s, Blocked(s.projection), reason, order).value)
  {
    hide Valid, AllSettled, Enumerates, SomeUndelivered, CompletedOutput, EnvelopeOk, RetryAuthorized, OpenRecovery;
    var p := s.projection;
    if Unobstructed(p) {
      OpenRecoveryIsUndelivered(s, order);
      var open := OpenRecovery(p.activities, order);
      if open.Some? {
        UndeliveredIsRetryable(s, active, open.value);
        assert RetryFor(p, p.activities[open.value].definition.input.replay, open.value);
      } else if CANONICAL_AUDIT in p.activities {
        StoredReceiptMatchesIntent(s);
        if Undelivered(p, CANONICAL_AUDIT) {
          UndeliveredIsRetryable(s, active, CANONICAL_AUDIT);
          assert RetryFor(p, p.activities[CANONICAL_AUDIT].definition.input.replay, CANONICAL_AUDIT);
        }
      }
    }
  }

  /** No two verdicts of different kinds fit one state. */
  lemma VerdictsExclude(p: Projection, v: Verdict, w: Verdict)
    requires VerdictFits(p, v) && VerdictFits(p, w)
    ensures v.ReconcileRun? == w.ReconcileRun? && v.AwaitingResume? == w.AwaitingResume?
    ensures v.RetryTerminalAudit? == w.RetryTerminalAudit? && v.FinalizeTerminal? == w.FinalizeTerminal?
    ensures v.AlreadyTerminal? == w.AlreadyTerminal? && v.ExecuteRun? == w.ExecuteRun?
    ensures v == w || v.ReconcileRun? || v.RetryTerminalAudit?
  {
  }

  /** The sweep reports ambiguity exactly when it leaves the run blocked. */
  lemma AmbiguousExactlyWhenBlocked(s: RunState, active: Option<string>, order: seq<ActivityId>)
    requires Valid(s) && Enumerates(order, s.projection.activities) && SweepRun(s, active, order).Ok?
    ensures var done := SweepRun(s, active, order).value; done.ambiguous <==> Blocked(done.state.projection)
  {
    hide SweepRun, Valid, Enumerates, AllSettled;
    SweepRunSettles(s, active, order);
  }

  /**
   The classification is exact: whatever state it leaves, its verdict fits that state, every verdict that
   fits is the one given (up to the explanation of a reconciliation and the choice among open recovery
   audits), and anything was written only if the run is sent to reconciliation.
   */
  lemma VerdictIsExact(s: RunState, active: Option<string>, order: seq<ActivityId>, v: Verdict)
    requires Valid(s) && Enumerates(order, s.projection.activities) && Dispose(s, active, order).Ok?
    ensures var (t, verdict) := Dispose(s, active, order).value;
            && VerdictFits(t.projection, verdict)
            && (VerdictFits(t.projection, v) ==>
                  v == verdict || (v.ReconcileRun? && verdict.ReconcileRun?)
                  || (v.RetryTerminalAudit? && verdict.RetryTerminalAudit?))
            && (t != s ==> verdict.ReconcileRun?)
  {
    hide SweepRun, Valid, Enumerates, AllSettled, VerdictFits, VerdictFor;
    SweepRunSettles(s, active, order);
    AmbiguousExactlyWhenBlocked(s, active, order);
    DispositionIsComplete(s, active, order);
    var swept := SweepRun(s, active, order).value;
    VerdictForFits(swept.state, active, swept.reason, order);
    var verdict := Dispose(s, active, order).value.1;
    if VerdictFits(swept.state.projection, v) {
      VerdictsExclude(swept.state.projection, v, verdict);
    }
    if swept.state != s {
      BlockedIsReconciled(swept.state.projection, verdict);
    }
  }

  lemma BlockedIsReconciled(p: Projection, v: Verdict)
    requires Blocked(p) && VerdictFits(p, v)
    ensures v.ReconcileRun?
  {
  }

  /** A run is executed if and only if it is active, nothing is open, ambiguous or terminal, and nothing was written. */
  lemma ExecutesExactly(s: RunState, active: Option<string>, order: seq<ActivityId>)
    requires Valid(s) && Enumerates(order, s.projection.activities) && Dispose(s, active, order).Ok?
    ensures var (t, verdict) := Dispose(s, active, order).value;
            verdict == ExecuteRun <==>
              && t == s && !Blocked(s.projection) && s.projection.status == Active
              && CANONICAL_AUDIT !in s.projection.activities && !SomeUndelivered(s.projection, RecoveryAudit)
  {
    hide Dispose, Valid, Enumerates, Blocked, SomeUndelivered;
    VerdictIsExact(s, active, order, ExecuteRun);
  }
}

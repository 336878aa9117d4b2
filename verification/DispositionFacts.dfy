/**
 What the restart classification guarantees, in whatever order it visits the activities: it leaves
 nothing open, it changes nothing when repeated, and it authorises finalization only when safe.
 */
module DispositionFacts {
  import opened Wrappers
  import opened RunLog
  import opened RunInvariants
  import opened AttemptHistory
  import opened RunOps
  import opened Disposition

  /** Nothing about this activity is left for a restarted worker to discover. */
  predicate Settled(active: Option<string>, a: ActivityId, r: Record) {
    match a.step
    case Ordinary(_) => !(r.definition.sideEffects == ReconcileRequired && LatestIs(r, Running))
    case Lifecycle => r.attempts != [] && (LatestIs(r, Running) ==> active == Some(a.key))
    case RunStoppedAudit => r.attempts != [] && !LatestIs(r, Running)
    case RecoveryAudit => r.attempts != [] && !LatestIs(r, Running)
    case LegacyRunStoppedAudit => true
  }

  predicate AllSettled(active: Option<string>, p: Projection) {
    forall a :: a in p.activities ==> Settled(active, a, p.activities[a])
  }

  predicate OnlyTouches(s: RunState, t: RunState, a: ActivityId) {
    && Extends(t, s)
    && t.projection.activities.Keys == s.projection.activities.Keys
    && forall b :: b in s.projection.activities && b != a ==> t.projection.activities[b] == s.projection.activities[b]
  }

  // ---------------------------------------------------------------- one interruption

  lemma AppendFresh(s: RunState, id: EventId, kind: EventKind)
    requires Valid(s) && Append(s, id, kind).Ok?
    requires forall i :: 0 <= i < |s.events| ==> s.events[i].kind != kind
    ensures var t := Append(s, id, kind).value;
            Valid(t) && Extends(t, s) && t.events == s.events + [Event(|s.events| + 1, id, kind)]
            && Apply(s.runId, s.projection, kind, |s.events| + 1) == Ok(t.projection)
  {
    AppendValid(s, id, kind);
  }

  /** An outcome is never recorded in the log for an attempt that is still running or absent. */
  lemma NotYetSettled(s: RunState, a: ActivityId, n: nat, kind: EventKind)
    requires Valid(s) && Settles(kind, a, n)
    requires HasAttempt(s.projection, a, n) ==> s.projection.activities[a].attempts[n - 1].status == Running
    ensures forall i :: 0 <= i < |s.events| ==> s.events[i].kind != kind
  {
    ValidLogAgrees(s);
    forall i | 0 <= i < |s.events|
      ensures s.events[i].kind != kind
    {
      assert EventAgrees(s.events[i], s.projection);
    }
  }

  lemma InterruptReserved(s: RunState, a: ActivityId, why: Note)
    requires Valid(s) && a in s.projection.activities
    requires IsReserved(a, s.projection.activities[a].definition) && LatestIs(s.projection.activities[a], Running)
    requires FailActivity(s, a, |s.projection.activities[a].attempts|, why, false, true).Ok?
    ensures var t := FailActivity(s, a, |s.projection.activities[a].attempts|, why, false, true).value.0;
            && Valid(t) && OnlyTouches(s, t, a)
            && LatestIs(t.projection.activities[a], NeedsReconciliation)
            && t.projection.status == ReconciliationPending
  {
    var n := |s.projection.activities[a].attempts|;
    var kind := ReconciliationRequired(a, n, ReservedFailure(why));
    NotYetSettled(s, a, n, kind);
    AppendFresh(s, AttemptId(a, n, ReconcilePhase), kind);
  }

  lemma InterruptOrdinary(s: RunState, a: ActivityId, why: Note)
    requires Valid(s) && a in s.projection.activities && a.step.Ordinary?
    requires s.projection.activities[a].definition.sideEffects == ReconcileRequired
    requires LatestIs(s.projection.activities[a], Running)
    requires FailActivity(s, a, |s.projection.activities[a].attempts|, why, false, true).Ok?
    ensures var t := FailActivity(s, a, |s.projection.activities[a].attempts|, why, false, true).value.0;
            && Valid(t) && OnlyTouches(s, t, a)
            && LatestIs(t.projection.activities[a], NeedsReconciliation)
            && t.projection.status == ReconciliationPending
  {
    var n := |s.projection.activities[a].attempts|;
    var failed := AttemptFailed(a, n, why, false, true);
    NotYetSettled(s, a, n, failed);
    AppendFresh(s, AttemptId(a, n, FailPhase), failed);
    var t := Append(s, AttemptId(a, n, FailPhase), failed).value;
    var kind := ReconciliationRequired(a, n, AmbiguousFailure(why));
    NotYetSettled(s, a, n, kind);
    AppendFresh(t, AttemptId(a, n, ReconcilePhase), kind);
  }

  lemma QuarantineOne(s: RunState, a: ActivityId, why: Note)
    requires Valid(s) && QuarantineUnstarted(s, a, why).Ok?
    ensures var t := QuarantineUnstarted(s, a, why).value;
            && Valid(t) && OnlyTouches(s, t, a)
            && LatestIs(t.projection.activities[a], NeedsReconciliation)
            && t.projection.status == ReconciliationPending
  {
    var kind := ReconciliationRequired(a, 1, why);
    NotYetSettled(s, a, 1, kind);
    AppendFresh(s, AttemptId(a, 1, OrphanPhase), kind);
  }

  // ---------------------------------------------------------------- one visit

  lemma LifecycleReplayReads(s: RunState, a: ActivityId)
    requires Valid(s) && a in s.projection.activities && a.step == Lifecycle
    ensures ReplayFromLifecycle(a, s.projection.activities[a], s.runId).Ok?
    ensures CompletedOutput(s.projection.activities[a]).Some? ==> !LatestIs(s.projection.activities[a], Running)
  {
    ValidRecords(s);
    ValidSequences(s);
    var r := s.projection.activities[a];
    assert RecordOk(s.runId, a, r);
    assert CompletedAmong(r.attempts[..0]) == None;
    if r.attempts != [] && r.attempts[0].status == Completed {
      assert AttemptOk(s.runId, a, r.definition, r.attempts[0]);
      assert LifecycleOutputOk(s.runId, a, r.attempts[0].output.value);
    }
  }

  /** The run is already marked for reconciliation, as the sweep's own starting flag reads it. */
  predicate Blocked(p: Projection) {
    p.status == ReconciliationPending || HasPendingReconciliation(p)
  }

  ghost predicate VisitOk(active: Option<string>, acc: Sweep, next: Sweep, a: ActivityId) {
    && Valid(next.state) && OnlyTouches(acc.state, next.state, a)
    && a in next.state.projection.activities && Settled(active, a, next.state.projection.activities[a])
    && (acc.ambiguous ==> next.ambiguous)
    && (!next.ambiguous ==> next.state == acc.state)
    && ((acc.ambiguous ==> Blocked(acc.state.projection)) ==> (next.ambiguous ==> Blocked(next.state.projection)))
  }

  lemma VisitLifecycle(active: Option<string>, acc: Sweep, a: ActivityId)
    requires Valid(acc.state) && a in acc.state.projection.activities && a.step == Lifecycle
    requires IsReserved(a, acc.state.projection.activities[a].definition)
    requires SweepLifecycle(acc.state.projection.activities[a], active, acc, a).Ok?
    ensures VisitOk(active, acc, SweepLifecycle(acc.state.projection.activities[a], active, acc, a).value, a)
  {
    hide Valid, OutputOk, AuditIntentOk, QuarantineUnstarted;
    var s, r := acc.state, acc.state.projection.activities[a];
    LifecycleReplayReads(s, a);
    ValidRecords(s);
    assert RecordOk(s.runId, a, r);
    if r.attempts == [] {
      QuarantineOne(s, a, OrphanLifecycle);
    } else if LatestIs(r, Running) && active != Some(a.key) {
      assert ReplayFromLifecycle(a, r, s.runId).value.None?;
      InterruptReserved(s, a, OpenLifecycle);
    }
  }

  lemma VisitAudit(active: Option<string>, acc: Sweep, a: ActivityId)
    requires Valid(acc.state) && a in acc.state.projection.activities
    requires a.step == RunStoppedAudit || a.step == RecoveryAudit
    requires IsReserved(a, acc.state.projection.activities[a].definition)
    requires SweepAudit(acc.state.projection.activities[a], acc, a).Ok?
    ensures VisitOk(active, acc, SweepAudit(acc.state.projection.activities[a], acc, a).value, a)
  {
    var s, r := acc.state, acc.state.projection.activities[a];
    if r.attempts == [] {
      QuarantineOne(s, a, OrphanRunStopped);
    } else if LatestIs(r, Running) {
      InterruptReserved(s, a, OpenRunStopped);
    }
  }

  lemma VisitOrdinary(active: Option<string>, acc: Sweep, a: ActivityId)
    requires Valid(acc.state) && a in acc.state.projection.activities && a.step.Ordinary?
    requires SweepOrdinary(acc.state.projection.activities[a], acc, a).Ok?
    ensures VisitOk(active, acc, SweepOrdinary(acc.state.projection.activities[a], acc, a).value, a)
  {
    var s, r := acc.state, acc.state.projection.activities[a];
    if r.definition.sideEffects == ReconcileRequired && LatestIs(r, Running) {
      InterruptOrdinary(s, a, OpenUnsafeActivity);
    }
  }

  lemma VisitSettles(phase: Phase, snapshot: map<ActivityId, Record>, active: Option<string>, acc: Sweep, a: ActivityId)
    requires Valid(acc.state) && a in snapshot && a in acc.state.projection.activities
    requires InPhase(phase, a) && acc.state.projection.activities[a] == snapshot[a]
    requires SweepOne(phase, snapshot, active, acc, a).Ok?
    ensures VisitOk(active, acc, SweepOne(phase, snapshot, active, acc, a).value, a)
  {
    ValidRecords(acc.state);
    assert RecordOk(acc.state.runId, a, snapshot[a]);
    match phase
    case Lifecycles => VisitLifecycle(active, acc, a);
    case Recoveries => VisitAudit(active, acc, a);
    case CanonicalPhase => VisitAudit(active, acc, a);
    case OrdinaryPhase => VisitOrdinary(active, acc, a);
  }

  /** Visiting a settled activity changes nothing and never fails. */
  lemma VisitSettled(phase: Phase, active: Option<string>, acc: Sweep, a: ActivityId)
    requires Valid(acc.state) && a in acc.state.projection.activities
    requires Settled(active, a, acc.state.projection.activities[a])
    ensures var r := SweepOne(phase, acc.state.projection.activities, active, acc, a);
            r.Ok? && r.value.state == acc.state
  {
    if a.step == Lifecycle {
      LifecycleReplayReads(acc.state, a);
    }
  }

  // ---------------------------------------------------------------- one phase

  ghost predicate Unvisited(phase: Phase, snapshot: map<ActivityId, Record>, acc: Sweep) {
    && Valid(acc.state)
    && acc.state.projection.activities.Keys == snapshot.Keys
    && forall b :: b in snapshot && InPhase(phase, b) ==> acc.state.projection.activities[b] == snapshot[b]
  }

  ghost predicate SameOutside(phase: Phase, s: RunState, t: RunState) {
    && Valid(t) && Extends(t, s)
    && t.projection.activities.Keys == s.projection.activities.Keys
    && forall b :: b in s.projection.activities && !InPhase(phase, b) ==>
                     t.projection.activities[b] == s.projection.activities[b]
  }

  ghost predicate SettledIn(phase: Phase, active: Option<string>, p: Projection) {
    forall b :: b in p.activities && InPhase(phase, b) ==> Settled(active, b, p.activities[b])
  }

  lemma OtherPhaseIsSkipped(phase: Phase, snapshot: map<ActivityId, Record>, active: Option<string>, acc: Sweep, a: ActivityId)
    requires !InPhase(phase, a)
    ensures SweepOne(phase, snapshot, active, acc, a) == Ok(acc)
  {
  }

  /** One visit, of an activity of this phase or of another, as the whole phase needs it. */
  lemma VisitEffect(phase: Phase, snapshot: map<ActivityId, Record>, active: Option<string>, acc: Sweep, a: ActivityId)
    requires Valid(acc.state) && a in snapshot && acc.state.projection.activities.Keys == snapshot.Keys
    requires InPhase(phase, a) ==> acc.state.projection.activities[a] == snapshot[a]
    requires SweepOne(phase, snapshot, active, acc, a).Ok?
    ensures var next := SweepOne(phase, snapshot, active, acc, a).value;
            && SameOutside(phase, acc.state, next.state)
            && (forall b :: b in snapshot && b != a ==>
                  next.state.projection.activities[b] == acc.state.projection.activities[b])
            && (InPhase(phase, a) ==> Settled(active, a, next.state.projection.activities[a]))
            && (acc.ambiguous ==> next.ambiguous)
            && (!next.ambiguous ==> next.state == acc.state)
            && ((acc.ambiguous ==> Blocked(acc.state.projection)) ==> (next.ambiguous ==> Blocked(next.state.projection)))
  {
    hide SweepOne, InPhase, Valid, Settled, Blocked;
    if InPhase(phase, a) {
      VisitSettles(phase, snapshot, active, acc, a);
    } else {
      OtherPhaseIsSkipped(phase, snapshot, active, acc, a);
    }
  }

  lemma {:induction false} PhaseVisits(phase: Phase, snapshot: map<ActivityId, Record>, active: Option<string>, acc: Sweep, order: seq<ActivityId>)
    requires Valid(acc.state) && acc.state.projection.activities.Keys == snapshot.Keys
    requires forall i :: 0 <= i < |order| ==> order[i] in snapshot
    requires forall i, j :: 0 <= i < j < |order| ==> order[i] != order[j]
    requires forall i :: 0 <= i < |order| && InPhase(phase, order[i]) ==>
                           acc.state.projection.activities[order[i]] == snapshot[order[i]]
    requires SweepAll(phase, snapshot, active, acc, order).Ok?
    ensures var done := SweepAll(phase, snapshot, active, acc, order).value;
            && SameOutside(phase, acc.state, done.state)
            && (forall b :: b in snapshot && b !in order ==>
                  done.state.projection.activities[b] == acc.state.projection.activities[b])
            && (forall b :: b in order && InPhase(phase, b) ==> Settled(active, b, done.state.projection.activities[b]))
            && (acc.ambiguous ==> done.ambiguous)
            && (!done.ambiguous ==> done.state == acc.state)
            && ((acc.ambiguous ==> Blocked(acc.state.projection)) ==> (done.ambiguous ==> Blocked(done.state.projection)))
    decreases |order|
  {
    hide Valid, Settled, Blocked, SweepOne, InPhase, VisitOk, Extends;
    if order == [] {
      ExtendsItself(acc.state);
    } else {
      var a, rest := order[0], order[1..];
      var next := SweepOne(phase, snapshot, active, acc, a).value;
      VisitEffect(phase, snapshot, active, acc, a);
      assert forall i :: 0 <= i < |rest| ==> rest[i] == order[i + 1];
      assert a !in rest;
      PhaseVisits(phase, snapshot, active, next, rest);
      var done := SweepAll(phase, snapshot, active, next, rest).value;
      ExtendsTrans(acc.state, next.state, done.state);
      assert forall b :: b in order ==> b == a || b in rest;
    }
  }

  lemma PhaseSettles(phase: Phase, snapshot: map<ActivityId, Record>, active: Option<string>, acc: Sweep, order: seq<ActivityId>)
    requires Unvisited(phase, snapshot, acc) && Enumerates(order, snapshot)
    requires SweepAll(phase, snapshot, active, acc, order).Ok?
    ensures var done := SweepAll(phase, snapshot, active, acc, order).value;
            && SameOutside(phase, acc.state, done.state)
            && SettledIn(phase, active, done.state.projection)
            && (acc.ambiguous ==> done.ambiguous)
            && (!done.ambiguous ==> done.state == acc.state)
            && ((acc.ambiguous ==> Blocked(acc.state.projection)) ==> (done.ambiguous ==> Blocked(done.state.projection)))
  {
    PhaseVisits(phase, snapshot, active, acc, order);
  }

  lemma {:induction false} PhaseOnSettledRun(phase: Phase, active: Option<string>, acc: Sweep, order: seq<ActivityId>)
    requires Valid(acc.state) && AllSettled(active, acc.state.projection)
    requires forall i :: 0 <= i < |order| ==> order[i] in acc.state.projection.activities
    ensures var r := SweepAll(phase, acc.state.projection.activities, active, acc, order);
            r.Ok? && r.value.state == acc.state
    decreases |order|
  {
    if order != [] {
      VisitSettled(phase, active, acc, order[0]);
      var next := SweepOne(phase, acc.state.projection.activities, active, acc, order[0]).value;
      PhaseOnSettledRun(phase, active, next, order[1..]);
    }
  }

  // ---------------------------------------------------------------- the whole classification

  lemma SweepRunSettles(s: RunState, active: Option<string>, order: seq<ActivityId>)
    requires Valid(s) && Enumerates(order, s.projection.activities) && SweepRun(s, active, order).Ok?
    ensures var done := SweepRun(s, active, order).value;
            && Valid(done.state) && Extends(done.state, s) && AllSettled(active, done.state.projection)
            && done.state.projection.activities.Keys == s.projection.activities.Keys
            && (FirstSweep(s).ambiguous ==> done.ambiguous)
            && (!done.ambiguous ==> done.state == s)
            && (done.ambiguous ==> Blocked(done.state.projection))
  {
    var snapshot := s.projection.activities;
    var start := FirstSweep(s);
    var a := SweepAll(Lifecycles, snapshot, active, start, order).value;
    PhaseSettles(Lifecycles, snapshot, active, start, order);
    var b := SweepAll(Recoveries, snapshot, active, a, order).value;
    StillUnvisited(Lifecycles, Recoveries, snapshot, start, a);
    PhaseSettles(Recoveries, snapshot, active, a, order);
    var c := SweepAll(CanonicalPhase, snapshot, active, b, order).value;
    StillUnvisited(Lifecycles, CanonicalPhase, snapshot, start, a);
    StillUnvisited(Recoveries, CanonicalPhase, snapshot, a, b);
    PhaseSettles(CanonicalPhase, snapshot, active, b, order);
    StillUnvisited(Lifecycles, OrdinaryPhase, snapshot, start, a);
    StillUnvisited(Recoveries, OrdinaryPhase, snapshot, a, b);
    StillUnvisited(CanonicalPhase, OrdinaryPhase, snapshot, b, c);
    PhaseSettles(OrdinaryPhase, snapshot, active, c, order);
    PhasesCover(s, a.state, b.state, c.state, SweepRun(s, active, order).value.state, active);
  }

  lemma StillUnvisited(done: Phase, later: Phase, snapshot: map<ActivityId, Record>, before: Sweep, after: Sweep)
    requires done != later && Unvisited(later, snapshot, before) && SameOutside(done, before.state, after.state)
    ensures Unvisited(later, snapshot, after)
  {
  }

  lemma PhasesCover(s: RunState, a: RunState, b: RunState, c: RunState, d: RunState, active: Option<string>)
    requires SameOutside(Lifecycles, s, a) && SameOutside(Recoveries, a, b)
    requires SameOutside(CanonicalPhase, b, c) && SameOutside(OrdinaryPhase, c, d)
    requires SettledIn(Lifecycles, active, a.projection) && SettledIn(Recoveries, active, b.projection)
    requires SettledIn(CanonicalPhase, active, c.projection) && SettledIn(OrdinaryPhase, active, d.projection)
    ensures Extends(d, s) && AllSettled(active, d.projection)
  {
    ValidRecords(d);
    forall x | x in d.projection.activities
      ensures Settled(active, x, d.projection.activities[x])
    {
      assert RecordOk(d.runId, x, d.projection.activities[x]);
      match x.step
      case Lifecycle => assert InPhase(Lifecycles, x);
      case RecoveryAudit => assert InPhase(Recoveries, x);
      case RunStoppedAudit => assert InPhase(CanonicalPhase, x);
      case Ordinary(_) => assert InPhase(OrdinaryPhase, x);
      case LegacyRunStoppedAudit =>
    }
  }

  /**
   Restart disposition is complete: when it returns, no reserved audit activity other than the
   caller's own lifecycle and no reconcile-required activity is still running, and no reserved
   schedule is left without an attempt.
   */
  lemma DispositionIsComplete(s: RunState, active: Option<string>, order: seq<ActivityId>)
    requires Valid(s) && Enumerates(order, s.projection.activities) && Dispose(s, active, order).Ok?
    ensures var t := Dispose(s, active, order).value.0;
            && Valid(t) && Extends(t, s) && AllSettled(active, t.projection)
            && Enumerates(order, t.projection.activities)
  {
    SweepRunSettles(s, active, order);
  }

  /** A sweep over a run in which everything is settled changes nothing and never fails. */
  lemma SweepOfSettledRun(t: RunState, active: Option<string>, order: seq<ActivityId>)
    requires Valid(t) && AllSettled(active, t.projection) && Enumerates(order, t.projection.activities)
    ensures SweepRun(t, active, order).Ok? && SweepRun(t, active, order).value.state == t
  {
    var a := FirstSweep(t);
    PhaseOnSettledRun(Lifecycles, active, a, order);
    a := SweepAll(Lifecycles, t.projection.activities, active, a, order).value;
    PhaseOnSettledRun(Recoveries, active, a, order);
    a := SweepAll(Recoveries, t.projection.activities, active, a, order).value;
    PhaseOnSettledRun(CanonicalPhase, active, a, order);
    a := SweepAll(CanonicalPhase, t.projection.activities, active, a, order).value;
    PhaseOnSettledRun(OrdinaryPhase, active, a, order);
  }

  lemma {:induction false} OpenRecoveryFinds(acts: map<ActivityId, Record>, order: seq<ActivityId>)
    ensures var open := OpenRecovery(acts, order);
            if open.Some?
            then open.value in acts && open.value.step == RecoveryAudit
                 && CompletedOutput(acts[open.value]).None?
            else forall a :: a in order && a in acts && a.step == RecoveryAudit && IsReserved(a, acts[a].definition)
                             ==> CompletedOutput(acts[a]).Some?
  {
    if order != [] {
      OpenRecoveryFinds(acts, order[1..]);
      assert forall a :: a in order ==> a == order[0] || a in order[1..];
    }
  }

  lemma {:induction false} CompletedOutputIsOk(runId: string, a: ActivityId, d: Definition, attempts: seq<Attempt>)
    requires forall i :: 0 <= i < |attempts| ==> AttemptOk(runId, a, d, attempts[i])
    ensures CompletedAmong(attempts).Some? ==> OutputOk(runId, a, d, CompletedAmong(attempts).value)
  {
    if attempts != [] {
      CompletedOutputIsOk(runId, a, d, attempts[..|attempts| - 1]);
    }
  }

  /** In a valid run, a stored canonical receipt is always the one its delivery intent announced. */
  lemma StoredReceiptMatchesIntent(s: RunState)
    requires Valid(s) && CANONICAL_AUDIT in s.projection.activities
    ensures var r := s.projection.activities[CANONICAL_AUDIT];
            && r.definition.input.AuditInput?
            && IsReserved(CANONICAL_AUDIT, r.definition)
            && r.definition.input.expectedOutput == Sha(ReceiptValue(r.definition.input.replay.receipt))
            && (CompletedOutput(r).Some? ==> CompletedOutput(r).value == ReceiptValue(r.definition.input.replay.receipt))
  {
    ValidRecords(s);
    var r := s.projection.activities[CANONICAL_AUDIT];
    assert RecordOk(s.runId, CANONICAL_AUDIT, r);
    CompletedOutputIsOk(s.runId, CANONICAL_AUDIT, r.definition, r.attempts);
  }

  /** Classification of a valid run never trips over a malformed stored envelope or receipt. */
  lemma VerdictIsTotal(s: RunState, ambiguous: bool, reason: Note, order: seq<ActivityId>)
    requires Valid(s)
    ensures VerdictFor(s, ambiguous, reason, order).Ok?
  {
    ValidRecords(s);
    ValidSequences(s);
    var acts := s.projection.activities;
    OpenRecoveryFinds(acts, order);
    var open := OpenRecovery(acts, order);
    if open.Some? {
      assert RecordOk(s.runId, open.value, acts[open.value]);
    }
    if CANONICAL_AUDIT in acts {
      assert RecordOk(s.runId, CANONICAL_AUDIT, acts[CANONICAL_AUDIT]);
      StoredReceiptMatchesIntent(s);
    }
  }

  /**
   Idempotence: repeating the classification with nothing in between succeeds, appends no event,
   and reaches the same verdict (a run sent to reconciliation stays there).
   */
  lemma DispositionIsIdempotent(s: RunState, active: Option<string>, order: seq<ActivityId>)
    requires Valid(s) && Enumerates(order, s.projection.activities) && Dispose(s, active, order).Ok?
    ensures var (t, verdict) := Dispose(s, active, order).value;
            && Dispose(t, active, order).Ok?
            && var (u, again) := Dispose(t, active, order).value;
            u == t && (again == verdict || (again.ReconcileRun? && verdict.ReconcileRun?))
  {
    SweepRunSettles(s, active, order);
    var first := SweepRun(s, active, order).value;
    SweepOfSettledRun(first.state, active, order);
    var second := SweepRun(first.state, active, order).value;
    VerdictIsTotal(second.state, second.ambiguous, second.reason, order);
    SweepRunSettles(first.state, active, order);
  }

  /**
   Finalization is authorised only when nothing is ambiguous or paused, every recovery audit is
   complete, and the stored receipt is the one its intent announced; classifying wrote nothing.
   */
  lemma FinalizeVerdictIsSafe(s: RunState, active: Option<string>, order: seq<ActivityId>, receipt: Receipt)
    requires Valid(s) && Enumerates(order, s.projection.activities)
    requires Dispose(s, active, order).Ok? && Dispose(s, active, order).value.1 == FinalizeTerminal(receipt)
    ensures Dispose(s, active, order).value.0 == s
    ensures !Blocked(s.projection) && s.projection.status != Paused && AllSettled(active, s.projection)
    ensures forall a :: a in s.projection.activities && a.step == RecoveryAudit
                        ==> CompletedOutput(s.projection.activities[a]).Some?
    ensures CANONICAL_AUDIT in s.projection.activities
            && var canonical := s.projection.activities[CANONICAL_AUDIT];
            && CompletedOutput(canonical) == Some(ReceiptValue(receipt))
            && canonical.definition.input.AuditInput?
            && canonical.definition.input.expectedOutput == Sha(ReceiptValue(receipt))
            && canonical.definition.input.replay.receipt == receipt
  {
    SweepRunSettles(s, active, order);
    OpenRecoveryFinds(s.projection.activities, order);
    ValidRecords(s);
    StoredReceiptMatchesIntent(s);
    forall a | a in s.projection.activities && a.step == RecoveryAudit
      ensures CompletedOutput(s.projection.activities[a]).Some?
    {
      assert RecordOk(s.runId, a, s.projection.activities[a]);
    }
  }
}

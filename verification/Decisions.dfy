/**
 What a caller is told when it begins an activity or reports a failure, traced back to the log: a reused
 result is a committed one, a refusal has its recorded outcome, a permit carries the scheduled key.
 */
module Decisions {
  import opened Wrappers
  import opened RunLog
  import opened RunInvariants
  import opened AttemptHistory
  import opened RunOps
  import opened DispositionFacts
  import opened TerminalProtocol

  // ---------------------------------------------------------------- every attempt has its event

  /** The event that gave attempt `n` of `a` the outcome it shows. */
  predicate Explains(kind: EventKind, a: ActivityId, n: nat, attempt: Attempt) {
    match attempt.status
    case Running => kind == AttemptStarted(a, n)
    case Completed =>
      attempt.output.Some? &&
      (kind == AttemptCompleted(a, n, attempt.output.value)
       || kind == ActivityReconciled(a, n, ResolvedCompleted(attempt.output.value)))
    case Failed =>
      || (kind.AttemptFailed? && kind == AttemptFailed(a, n, kind.error, attempt.retryable, attempt.effectAmbiguous))
      || (kind == ActivityReconciled(a, n, SafeToRetry) && attempt.retryable && !attempt.effectAmbiguous)
    case NeedsReconciliation => kind.ReconciliationRequired? && kind == ReconciliationRequired(a, n, kind.ambiguity)
    case Cancelled =>
      || (kind.AttemptCancelled? && kind == AttemptCancelled(a, n, kind.cancelReason))
      || kind == ActivityReconciled(a, n, ResolvedCancelled)
  }

  ghost predicate Explained(events: seq<Event>, a: ActivityId, n: nat, attempt: Attempt) {
    exists i :: 0 <= i < |events| && Explains(events[i].kind, a, n, attempt)
  }

  ghost predicate RecordExplained(events: seq<Event>, a: ActivityId, r: Record) {
    && (exists i :: 0 <= i < |events| && events[i].kind == ActivityScheduled(a, r.definition))
    && (forall i :: 0 <= i < |r.attempts| ==> Explained(events, a, i + 1, r.attempts[i]))
  }

  ghost predicate AllExplained(events: seq<Event>, p: Projection) {
    forall a :: a in p.activities ==> RecordExplained(events, a, p.activities[a])
  }

  lemma ExplanationsStay(events: seq<Event>, e: Event, a: ActivityId, r: Record)
    requires RecordExplained(events, a, r)
    ensures RecordExplained(events + [e], a, r)
  {
    hide Explains;
    var log := events + [e];
    var s :| 0 <= s < |events| && events[s].kind == ActivityScheduled(a, r.definition);
    assert log[s] == events[s];
    forall i | 0 <= i < |r.attempts|
      ensures Explained(log, a, i + 1, r.attempts[i])
    {
      assert Explained(events, a, i + 1, r.attempts[i]);
      var k :| 0 <= k < |events| && Explains(events[k].kind, a, i + 1, r.attempts[i]);
      assert log[k] == events[k];
    }
  }

  /** `after` is `before` with nothing but attempt `n` changed or appended. */
  predicate ChangesOnly(before: Record, after: Record, n: nat) {
    && after.definition == before.definition && 1 <= n <= |after.attempts|
    && |after.attempts| == (if n <= |before.attempts| then |before.attempts| else |before.attempts| + 1)
    && (forall i :: 0 <= i < |before.attempts| && i != n - 1 ==> after.attempts[i] == before.attempts[i])
  }

  /** What an activity event does to the record of its subject. */
  predicate TakesUp(p: Projection, kind: EventKind, sequence: nat, after: Record)
    requires ActivityKind(kind)
  {
    if kind.ActivityScheduled? then after == Record(kind.definition, sequence, [])
    else
      && Subject(kind) in p.activities
      && ChangesOnly(p.activities[Subject(kind)], after, TouchedAttempt(kind))
      && Explains(kind, Subject(kind), TouchedAttempt(kind), after.attempts[TouchedAttempt(kind) - 1])
  }

  /** An activity event changes one record: it creates it, or changes the one attempt it names and explains it. */
  lemma EventExplainsItsAttempt(runId: string, p: Projection, kind: EventKind, sequence: nat)
    requires ActivityKind(kind) && Apply(runId, p, kind, sequence).Ok?
    ensures var q, a := Apply(runId, p, kind, sequence).value, Subject(kind);
            && a in q.activities && TakesUp(p, kind, sequence, q.activities[a])
            && (forall b :: b in q.activities && b != a ==> b in p.activities && q.activities[b] == p.activities[b])
  {
    hide CompletionOk, ReconciliationOk, ReservedScheduleOk, AttemptStartOk, HasTerminalMarker, IsReserved;
    hide HasPendingReconciliation;
  }

  lemma ApplyKeepsExplained(runId: string, events: seq<Event>, p: Projection, e: Event)
    requires AllExplained(events, p) && Apply(runId, p, e.kind, e.sequence).Ok?
    ensures AllExplained(events + [e], Apply(runId, p, e.kind, e.sequence).value)
  {
    hide Apply, Explains, RecordExplained, TakesUp;
    var q, log := Apply(runId, p, e.kind, e.sequence).value, events + [e];
    forall a | a in q.activities
      ensures RecordExplained(log, a, q.activities[a])
    {
      if !ActivityKind(e.kind) {
        ControlLeavesActivities(runId, p, e.kind, e.sequence);
        ExplanationsStay(events, e, a, p.activities[a]);
      } else {
        EventExplainsItsAttempt(runId, p, e.kind, e.sequence);
        if a != Subject(e.kind) {
          ExplanationsStay(events, e, a, p.activities[a]);
        } else {
          SubjectIsExplained(events, p, e, q);
        }
      }
    }
  }

  lemma ControlLeavesActivities(runId: string, p: Projection, kind: EventKind, sequence: nat)
    requires !ActivityKind(kind) && Apply(runId, p, kind, sequence).Ok?
    ensures Apply(runId, p, kind, sequence).value.activities == p.activities
  {
    ControlKeepsActivities(p, kind);
  }

  lemma SubjectIsExplained(events: seq<Event>, p: Projection, e: Event, q: Projection)
    requires AllExplained(events, p) && ActivityKind(e.kind)
    requires Subject(e.kind) in q.activities && TakesUp(p, e.kind, e.sequence, q.activities[Subject(e.kind)])
    ensures RecordExplained(events + [e], Subject(e.kind), q.activities[Subject(e.kind)])
  {
    hide Explains;
    var a, log := Subject(e.kind), events + [e];
    assert log[|events|] == e;
    if e.kind.ActivityScheduled? {
      assert log[|events|].kind == ActivityScheduled(a, q.activities[a].definition);
    } else {
      ExplanationsStay(events, e, a, p.activities[a]);
      forall i | 0 <= i < |q.activities[a].attempts|
        ensures Explained(log, a, i + 1, q.activities[a].attempts[i])
      {
        if i == TouchedAttempt(e.kind) - 1 {
          assert Explains(log[|events|].kind, a, i + 1, q.activities[a].attempts[i]);
        } else {
          assert i < |p.activities[a].attempts|;
          assert q.activities[a].attempts[i] == p.activities[a].attempts[i];
          assert Explained(log, a, i + 1, p.activities[a].attempts[i]);
        }
      }
    }
  }

  /** In every valid log, every record was scheduled with its definition and every attempt has its event. */
  lemma {:induction false} ValidIsExplained(s: RunState)
    requires Valid(s)
    ensures AllExplained(s.events, s.projection)
    decreases |s.events|
  {
    hide Apply, RecordExplained;
    if |s.events| > 1 {
      var prior, last := Prior(s), s.events[|s.events| - 1];
      ValidIsExplained(prior);
      ApplyKeepsExplained(s.runId, prior.events, prior.projection, last);
      assert prior.events + [last] == s.events;
    }
  }

  // ---------------------------------------------------------------- decisions

  /** The event commits `output` as the result of attempt `n` of `a`. */
  predicate Commits(kind: EventKind, a: ActivityId, n: nat, output: Value) {
    kind == AttemptCompleted(a, n, output) || kind == ActivityReconciled(a, n, ResolvedCompleted(output))
  }

  /** The event a decision rests on. */
  predicate Backs(kind: EventKind, d: Decision) {
    match d
    case Execute(a, n, _) => kind == AttemptStarted(a, n)
    case ReuseCompleted(a, output) => ActivityKind(kind) && !kind.ActivityScheduled? && Commits(kind, a, TouchedAttempt(kind), output)
    case MustReconcile(a) => kind.ReconciliationRequired? && kind.ambiguous == a
    case PreviouslyFailed(a) => kind.AttemptFailed? && kind.failed == a && !kind.retryable
    case PreviouslyCancelled(a) =>
      || (kind.AttemptCancelled? && kind.cancelled == a)
      || (kind.ActivityReconciled? && kind.reconciled == a && kind.resolution == ResolvedCancelled)
  }

  ghost predicate Backed(events: seq<Event>, d: Decision) {
    exists i :: 0 <= i < |events| && Backs(events[i].kind, d)
  }

  /** What a decision says about the committed state and its log. */
  ghost predicate DecisionFits(t: RunState, d: Decision) {
    && Backed(t.events, d)
    && d.activity in t.projection.activities
    && var r := t.projection.activities[d.activity];
    && (d.Execute? ==>
          && d.attempt == |r.attempts| && LatestIs(r, Running) && CompletedOutput(r).None?
          && d.idempotencyKey == r.definition.idempotencyKey)
    && (d.ReuseCompleted? ==> CompletedOutput(r) == Some(d.output))
  }

  lemma {:induction false} CompletedAttempt(attempts: seq<Attempt>) returns (i: nat)
    requires CompletedAmong(attempts).Some?
    ensures i < |attempts| && attempts[i].status == Completed && attempts[i].output == CompletedAmong(attempts)
  {
    if attempts[|attempts| - 1].status == Completed {
      i := |attempts| - 1;
    } else {
      i := CompletedAttempt(attempts[..|attempts| - 1]);
    }
  }

  lemma EventOf(s: RunState, a: ActivityId, i: nat) returns (k: nat)
    requires Valid(s) && a in s.projection.activities && i < |s.projection.activities[a].attempts|
    ensures k < |s.events| && Explains(s.events[k].kind, a, i + 1, s.projection.activities[a].attempts[i])
  {
    hide Valid, Explains;
    ValidIsExplained(s);
    assert RecordExplained(s.events, a, s.projection.activities[a]);
    assert Explained(s.events, a, i + 1, s.projection.activities[a].attempts[i]);
    k :| 0 <= k < |s.events| && Explains(s.events[k].kind, a, i + 1, s.projection.activities[a].attempts[i]);
  }

  /** A reused result was committed by an event of the log. */
  lemma ReusedIsCommitted(s: RunState, a: ActivityId)
    requires Valid(s) && a in s.projection.activities && CompletedOutput(s.projection.activities[a]).Some?
    ensures DecisionFits(s, ReuseCompleted(a, CompletedOutput(s.projection.activities[a]).value))
  {
    var i := CompletedAttempt(s.projection.activities[a].attempts);
    var k := EventOf(s, a, i);
    assert Backs(s.events[k].kind, ReuseCompleted(a, CompletedOutput(s.projection.activities[a]).value));
  }

  lemma StartFits(s: RunState, a: ActivityId)
    requires Valid(s) && a in s.projection.activities && StartNext(s, a).Ok?
    requires CompletedOutput(s.projection.activities[a]).None?
    ensures var (t, d) := StartNext(s, a).value;
            && Valid(t) && DecisionFits(t, d) && d == Execute(a, |s.projection.activities[a].attempts| + 1, d.idempotencyKey)
            && a in t.projection.activities
            && t.projection.activities[a].definition == s.projection.activities[a].definition
  {
    hide Valid, HasTerminalMarker, AttemptStartOk;
    var r := s.projection.activities[a];
    var n := |r.attempts| + 1;
    ValidLogAgrees(s);
    forall i | 0 <= i < |s.events|
      ensures s.events[i].kind != AttemptStarted(a, n)
    {
      assert EventAgrees(s.events[i], s.projection);
    }
    AppendFresh(s, AttemptId(a, n, StartPhase), AttemptStarted(a, n));
    var t := StartNext(s, a).value.0;
    assert t.projection.activities[a].attempts[..n - 1] == r.attempts;
    assert Backs(t.events[|s.events|].kind, StartNext(s, a).value.1);
  }

  // ---------------------------------------------------------------- the decision on a known activity

  /** Everything but an effect that needs reconciliation may be repeated after an interruption. */
  predicate Repeatable(d: Definition) {
    d.sideEffects != ReconcileRequired
  }

  /** The decision a record calls for. */
  predicate CallsFor(r: Record, a: ActivityId, d: Decision) {
    var n := |r.attempts|;
    var next := Execute(a, n + 1, r.definition.idempotencyKey);
    if CompletedOutput(r).Some? then d == ReuseCompleted(a, CompletedOutput(r).value)
    else if n == 0 then d == next
    else
      var last := r.attempts[n - 1];
      match last.status
      case Running => d == (if Repeatable(r.definition) then next else MustReconcile(a))
      case Failed =>
        d == (if !last.retryable then PreviouslyFailed(a)
              else if Repeatable(r.definition) || !last.effectAmbiguous then next
              else MustReconcile(a))
      case NeedsReconciliation => d == MustReconcile(a)
      case Cancelled => d == PreviouslyCancelled(a)
      case Completed => false
  }

  /** An idempotent activity is never scheduled without its key. */
  lemma IdempotentHasKey(s: RunState, a: ActivityId)
    requires Valid(s) && a in s.projection.activities
    ensures var d := s.projection.activities[a].definition; Repeatable(d) <==> RetryIsSafe(d, true)
  {
    hide Valid;
    ValidIsExplained(s);
    assert RecordExplained(s.events, a, s.projection.activities[a]);
    var d := s.projection.activities[a].definition;
    var i :| 0 <= i < |s.events| && s.events[i].kind == ActivityScheduled(a, d);
    FirstEventStarts(s);
    ScheduledWithKey(s, i);
  }

  lemma ScheduledWithKey(s: RunState, i: nat)
    requires Valid(s) && 1 <= i < |s.events| && s.events[i].kind.ActivityScheduled?
    ensures var d := s.events[i].kind.definition;
            d.sideEffects == Idempotent ==> d.idempotencyKey.Some? && d.idempotencyKey.value != ""
  {
    hide ReservedScheduleOk, HasTerminalMarker;
    AtStep(s, i);
  }

  lemma LastCompletedOrNot(attempts: seq<Attempt>, attempt: Attempt)
    requires attempts != [] && CompletedAmong(attempts).None? && attempt.status != Completed
    requires attempts[|attempts| - 1].status != Completed
    ensures CompletedAmong(attempts[|attempts| - 1 := attempt]).None?
  {
    assert attempts[|attempts| - 1 := attempt][..|attempts| - 1] == attempts[..|attempts| - 1];
  }

  /** A running attempt is the last one, and its failure, under whichever identity, is recorded as reported. */
  lemma FailureEffect(s: RunState, a: ActivityId, n: nat, phase: AttemptPhase, error: Note, retryable: bool, ambiguous: bool)
    requires Valid(s) && HasAttempt(s.projection, a, n) && s.projection.activities[a].attempts[n - 1].status == Running
    requires CompletedOutput(s.projection.activities[a]).None?
    requires Append(s, AttemptId(a, n, phase), AttemptFailed(a, n, error, retryable, ambiguous)).Ok?
    ensures n == |s.projection.activities[a].attempts|
    ensures var t := Append(s, AttemptId(a, n, phase), AttemptFailed(a, n, error, retryable, ambiguous)).value;
            && Valid(t) && a in t.projection.activities
            && var r := t.projection.activities[a];
            && r.definition == s.projection.activities[a].definition && CompletedOutput(r).None?
            && |r.attempts| == n && LatestIs(r, Failed)
            && r.attempts[n - 1].retryable == retryable && r.attempts[n - 1].effectAmbiguous == ambiguous
  {
    hide Valid, IsReserved, ReservedDefinitionOk, OutputOk;
    var r := s.projection.activities[a];
    ValidRecords(s);
    assert RecordOk(s.runId, a, r);
    var kind := AttemptFailed(a, n, error, retryable, ambiguous);
    NotYetSettled(s, a, n, kind);
    AppendFresh(s, AttemptId(a, n, phase), kind);
    var t := Append(s, AttemptId(a, n, phase), kind).value;
    LastCompletedOrNot(r.attempts, t.projection.activities[a].attempts[n - 1]);
  }

  /** Asking for reconciliation leaves the event that asks for it in the log. */
  lemma ReconciliationIsBacked(s: RunState, a: ActivityId, n: nat, phase: AttemptPhase, why: Note)
    requires Valid(s) && a in s.projection.activities
    requires Append(s, AttemptId(a, n, phase), ReconciliationRequired(a, n, why)).Ok?
    ensures var t := Append(s, AttemptId(a, n, phase), ReconciliationRequired(a, n, why)).value;
            && Valid(t) && DecisionFits(t, MustReconcile(a))
            && a in t.projection.activities && t.projection.activities[a].definition == s.projection.activities[a].definition
  {
    hide Valid, Apply;
    var id, kind := AttemptId(a, n, phase), ReconciliationRequired(a, n, why);
    AppendValid(s, id, kind);
    var t := Append(s, id, kind).value;
    if t == s {
      var i :| 0 <= i < |s.events| && s.events[i].id == id && s.events[i].kind == kind;
      assert Backs(s.events[i].kind, MustReconcile(a));
    } else {
      assert Backs(t.events[|s.events|].kind, MustReconcile(a));
      ApplyProgresses(s.runId, s.projection, kind, |s.events| + 1);
    }
  }

  lemma DecideRestarts(s: RunState, a: ActivityId)
    requires Valid(s) && a in s.projection.activities && CompletedOutput(s.projection.activities[a]).None?
    requires LatestIs(s.projection.activities[a], Running) && Repeatable(s.projection.activities[a].definition)
    requires DecideActivity(s, a).Ok?
    ensures var (t, d) := DecideActivity(s, a).value;
            && CallsFor(s.projection.activities[a], a, d) && Valid(t) && DecisionFits(t, d)
            && a in t.projection.activities && t.projection.activities[a].definition == s.projection.activities[a].definition
  {
    hide Valid, Append, StartNext, DecisionFits;
    var n := |s.projection.activities[a].attempts|;
    IdempotentHasKey(s, a);
    FailureEffect(s, a, n, InterruptPhase, WorkerInterrupted, true, true);
    var t := Append(s, AttemptId(a, n, InterruptPhase), AttemptFailed(a, n, WorkerInterrupted, true, true)).value;
    StartFits(t, a);
    StartKey(t, a);
  }

  lemma StartKey(s: RunState, a: ActivityId)
    requires a in s.projection.activities && StartNext(s, a).Ok?
    ensures StartNext(s, a).value.1.idempotencyKey == s.projection.activities[a].definition.idempotencyKey
  {
  }

  /** The decision on a known activity is the one its record calls for, and it rests on the log. */
  lemma DecideMeaning(s: RunState, a: ActivityId)
    requires Valid(s) && DecideActivity(s, a).Ok?
    ensures a in s.projection.activities
    ensures var (t, d) := DecideActivity(s, a).value;
            && CallsFor(s.projection.activities[a], a, d) && Valid(t) && DecisionFits(t, d)
            && a in t.projection.activities && t.projection.activities[a].definition == s.projection.activities[a].definition
            && (!d.Execute? && !d.MustReconcile? ==> t == s)
  {
    hide Valid, Append, StartNext, DecisionFits, Explains;
    var r := s.projection.activities[a];
    var n := |r.attempts|;
    IdempotentHasKey(s, a);
    if CompletedOutput(r).Some? {
      ReusedIsCommitted(s, a);
    } else if n == 0 {
      StartFits(s, a);
      StartKey(s, a);
    } else {
      match r.attempts[n - 1].status
      case Running =>
        if Repeatable(r.definition) {
          DecideRestarts(s, a);
        } else {
          ReconciliationIsBacked(s, a, n, ReconcilePhase, UncommittedEffect);
        }
      case Failed =>
        if !r.attempts[n - 1].retryable {
          LatestIsBacked(s, a, PreviouslyFailed(a));
        } else if Repeatable(r.definition) || !r.attempts[n - 1].effectAmbiguous {
          StartFits(s, a);
          StartKey(s, a);
        } else {
          ReconciliationIsBacked(s, a, n, ReconcilePhase, AmbiguousEffect);
        }
      case NeedsReconciliation => LatestIsBacked(s, a, MustReconcile(a));
      case Cancelled => LatestIsBacked(s, a, PreviouslyCancelled(a));
      case Completed =>
    }
  }

  lemma LatestIsBacked(s: RunState, a: ActivityId, d: Decision)
    requires Valid(s) && a in s.projection.activities && s.projection.activities[a].attempts != []
    requires || (d == MustReconcile(a) && LatestIs(s.projection.activities[a], NeedsReconciliation))
             || (d == PreviouslyCancelled(a) && LatestIs(s.projection.activities[a], Cancelled))
             || (d == PreviouslyFailed(a) && LatestIs(s.projection.activities[a], Failed)
                 && !s.projection.activities[a].attempts[|s.projection.activities[a].attempts| - 1].retryable)
    ensures DecisionFits(s, d)
  {
    hide Valid;
    var k := EventOf(s, a, |s.projection.activities[a].attempts| - 1);
    assert Backs(s.events[k].kind, d);
  }

  // ---------------------------------------------------------------- beginning an activity

  /** An activity that is not known yet is scheduled as asked and started. */
  lemma BeginOfUnknown(s: RunState, a: ActivityId, d: Definition)
    requires Valid(s) && a !in s.projection.activities && PrepareActivity(s, a, d).Ok?
    ensures var (t, decision) := PrepareActivity(s, a, d).value;
            && Valid(t) && DecisionFits(t, decision) && decision == Execute(a, 1, d.idempotencyKey)
            && a in t.projection.activities && t.projection.activities[a].definition == d
  {
    hide Valid, DecisionFits, HasTerminalMarker, ReservedScheduleOk, DecideActivity;
    var kind := ActivityScheduled(a, d);
    ValidLogAgrees(s);
    forall i | 0 <= i < |s.events|
      ensures s.events[i].kind != kind
    {
      assert EventAgrees(s.events[i], s.projection);
    }
    AppendFresh(s, ScheduledId(a), kind);
    DecideMeaning(Append(s, ScheduledId(a), kind).value, a);
  }

  /**
   What begin answers: it accepts only the definition the activity was scheduled with, an activity that is
   not known yet is started, one that is known gets exactly the decision its record calls for, and
   every answer rests on an event of the committed log.
   */
  lemma BeginMeaning(s: RunState, a: ActivityId, d: Definition)
    requires Valid(s) && PrepareActivity(s, a, d).Ok?
    ensures var (t, decision) := PrepareActivity(s, a, d).value;
            && Valid(t) && a in t.projection.activities && t.projection.activities[a].definition == d
            && DecisionFits(t, decision)
            && (if a in s.projection.activities
                then s.projection.activities[a].definition == d && CallsFor(s.projection.activities[a], a, decision)
                else decision == Execute(a, 1, d.idempotencyKey))
            && (!decision.Execute? && !decision.MustReconcile? ==> t == s)
            && s.projection.status == Active
  {
    hide Valid, DecisionFits, DecideActivity, CallsFor, Append;
    if a in s.projection.activities {
      DecideMeaning(s, a);
    } else {
      BeginOfUnknown(s, a, d);
    }
  }

  /** A result committed for the last attempt is what every later begin gets, and it changes nothing. */
  lemma CommittedResultIsReused(s: RunState, a: ActivityId, d: Definition, i: nat, n: nat, output: Value)
    requires Valid(s) && PrepareActivity(s, a, d).Ok?
    requires i < |s.events| && Commits(s.events[i].kind, a, n, output)
    requires a in s.projection.activities && n == |s.projection.activities[a].attempts|
    ensures PrepareActivity(s, a, d).value == (s, ReuseCompleted(a, output))
  {
    hide Valid, PrepareActivity, DecisionFits;
    ValidLogAgrees(s);
    assert EventAgrees(s.events[i], s.projection);
    BeginMeaning(s, a, d);
  }

  // ---------------------------------------------------------------- reporting a failure

  /** Reporting a failure leaves the report in the log. */
  lemma FailureIsLogged(s: RunState, a: ActivityId, n: nat, error: Note, retryable: bool, ambiguous: bool)
    requires Valid(s) && a in s.projection.activities
    requires Append(s, AttemptId(a, n, FailPhase), AttemptFailed(a, n, error, retryable, ambiguous)).Ok?
    ensures var t := Append(s, AttemptId(a, n, FailPhase), AttemptFailed(a, n, error, retryable, ambiguous)).value;
            && Valid(t) && a in t.projection.activities
            && t.projection.activities[a].definition == s.projection.activities[a].definition
            && (!retryable ==> DecisionFits(t, PreviouslyFailed(a)))
  {
    hide Valid, Apply;
    var id, kind := AttemptId(a, n, FailPhase), AttemptFailed(a, n, error, retryable, ambiguous);
    AppendValid(s, id, kind);
    var t := Append(s, id, kind).value;
    if t == s {
      var i :| 0 <= i < |s.events| && s.events[i].id == id && s.events[i].kind == kind;
      assert retryable || Backs(s.events[i].kind, PreviouslyFailed(a));
    } else {
      assert retryable || Backs(t.events[|s.events|].kind, PreviouslyFailed(a));
      ApplyProgresses(s.runId, s.projection, kind, |s.events| + 1);
    }
  }

  /**
   What reporting a failure answers: a reserved activity and an ambiguous effect that cannot be repeated
   must be reconciled, a final failure is final, and a retryable one of a running attempt starts the next.
   */
  lemma FailureMeaning(s: RunState, a: ActivityId, n: nat, error: Note, retryable: bool, ambiguous: bool)
    requires Valid(s) && FailActivity(s, a, n, error, retryable, ambiguous).Ok?
    ensures a in s.projection.activities
    ensures var (t, decision) := FailActivity(s, a, n, error, retryable, ambiguous).value;
            var d := s.projection.activities[a].definition;
            && Valid(t) && DecisionFits(t, decision) && decision.activity == a
            && (if IsReserved(a, d) || (ambiguous && !Repeatable(d)) then decision == MustReconcile(a)
                else if !retryable then decision == PreviouslyFailed(a)
                else HasAttempt(s.projection, a, n) && s.projection.activities[a].attempts[n - 1].status == Running
                     && CompletedOutput(s.projection.activities[a]).None?
                     ==> decision == Execute(a, n + 1, d.idempotencyKey))
  {
    hide Valid, Append, DecisionFits, DecideActivity, IsReserved, CallsFor;
    var d := s.projection.activities[a].definition;
    IdempotentHasKey(s, a);
    if IsReserved(a, d) {
      ReconciliationIsBacked(s, a, n, ReconcilePhase, ReservedFailure(error));
    } else {
      FailureIsLogged(s, a, n, error, retryable, ambiguous);
      var t := Append(s, AttemptId(a, n, FailPhase), AttemptFailed(a, n, error, retryable, ambiguous)).value;
      if ambiguous && !Repeatable(d) {
        ReconciliationIsBacked(t, a, n, ReconcilePhase, AmbiguousFailure(error));
      } else if retryable {
        DecideMeaning(t, a);
        DecisionIsAbout(t, a);
        if HasAttempt(s.projection, a, n) && s.projection.activities[a].attempts[n - 1].status == Running
           && CompletedOutput(s.projection.activities[a]).None? {
          FailureEffect(s, a, n, FailPhase, error, retryable, ambiguous);
          FailedCallsForRetry(t.projection.activities[a], a, DecideActivity(t, a).value.1);
        }
      }
    }
  }

  lemma DecisionIsAbout(s: RunState, a: ActivityId)
    requires DecideActivity(s, a).Ok?
    ensures DecideActivity(s, a).value.1.activity == a
  {
  }

  lemma FailedCallsForRetry(r: Record, a: ActivityId, d: Decision)
    requires CallsFor(r, a, d) && CompletedOutput(r).None? && LatestIs(r, Failed)
    requires r.attempts[|r.attempts| - 1].retryable
    requires Repeatable(r.definition) || !r.attempts[|r.attempts| - 1].effectAmbiguous
    ensures d == Execute(a, |r.attempts| + 1, r.definition.idempotencyKey)
  {
  }
}

/**
 Restart classification always reaches a verdict. In a run whose attempt identities are used only for
 their own attempts, which is every run that drivers write, no stored prefix, however a worker
 crashed, makes the classification fail.
 */
module DispositionTotality {
  import opened Wrappers
  import opened RunLog
  import opened RunInvariants
  import opened AttemptHistory
  import opened RunOps
  import opened Disposition
  import opened DispositionFacts
  import opened RunCommands
  import opened CommandFacts
  import opened TerminalProtocol

  ghost predicate IdsFit(events: seq<Event>) {
    forall i :: 0 <= i < |events| ==> IdFits(events[i].id, events[i].kind)
  }

  /** A live run in which the sweep can still record outcomes. */
  ghost predicate Sweepable(s: RunState) {
    Valid(s) && IdsFit(s.events) && !Terminal(s.projection.status)
  }

  lemma ContinuationFits(s: RunState, t: RunState, may: EventKind -> bool)
    requires IdsFit(s.events) && Continues(s, t, may)
    ensures IdsFit(t.events)
  {
    forall i | 0 <= i < |t.events|
      ensures IdFits(t.events[i].id, t.events[i].kind)
    {
      if i < |s.events| {
        assert t.events[i] == s.events[i];
      }
    }
  }

  /** No outcome identity of an attempt that is running or absent has been used. */
  lemma OutcomeIdIsFree(s: RunState, a: ActivityId, n: nat, phase: AttemptPhase)
    requires Valid(s) && IdsFit(s.events) && phase != StartPhase
    requires HasAttempt(s.projection, a, n) ==> s.projection.activities[a].attempts[n - 1].status == Running
    ensures !IdUsed(s.events, AttemptId(a, n, phase))
  {
    ValidLogAgrees(s);
    forall i | 0 <= i < |s.events|
      ensures s.events[i].id != AttemptId(a, n, phase)
    {
      assert EventAgrees(s.events[i], s.projection) && IdFits(s.events[i].id, s.events[i].kind);
    }
  }

  // ---------------------------------------------------------------- one interruption

  lemma ReservedInterruptSucceeds(s: RunState, a: ActivityId, why: Note)
    requires Sweepable(s) && a in s.projection.activities
    requires IsReserved(a, s.projection.activities[a].definition) && LatestIs(s.projection.activities[a], Running)
    ensures var r := FailActivity(s, a, |s.projection.activities[a].attempts|, why, false, true);
            r.Ok? && !Terminal(r.value.0.projection.status)
  {
    OutcomeIdIsFree(s, a, |s.projection.activities[a].attempts|, ReconcilePhase);
  }

  lemma OrdinaryInterruptSucceeds(s: RunState, a: ActivityId, why: Note)
    requires Sweepable(s) && a in s.projection.activities && a.step.Ordinary?
    requires s.projection.activities[a].definition.sideEffects == ReconcileRequired
    requires LatestIs(s.projection.activities[a], Running)
    ensures var r := FailActivity(s, a, |s.projection.activities[a].attempts|, why, false, true);
            r.Ok? && !Terminal(r.value.0.projection.status)
  {
    var n := |s.projection.activities[a].attempts|;
    OutcomeIdIsFree(s, a, n, FailPhase);
    OutcomeIdIsFree(s, a, n, ReconcilePhase);
    var t := Append(s, AttemptId(a, n, FailPhase), AttemptFailed(a, n, why, false, true)).value;
    assert !IdUsed(t.events, AttemptId(a, n, ReconcilePhase));
  }

  lemma QuarantineSucceeds(s: RunState, a: ActivityId, why: Note)
    requires Sweepable(s) && a in s.projection.activities
    requires IsReserved(a, s.projection.activities[a].definition) && s.projection.activities[a].attempts == []
    ensures var r := QuarantineUnstarted(s, a, why);
            r.Ok? && !Terminal(r.value.projection.status)
  {
    OutcomeIdIsFree(s, a, 1, OrphanPhase);
  }

  // ---------------------------------------------------------------- one visit

  lemma VisitSucceeds(phase: Phase, snapshot: map<ActivityId, Record>, active: Option<string>, acc: Sweep, a: ActivityId)
    requires Sweepable(acc.state) && a in snapshot && a in acc.state.projection.activities
    requires InPhase(phase, a) && acc.state.projection.activities[a] == snapshot[a]
    ensures SweepOne(phase, snapshot, active, acc, a).Ok?
    ensures Sweepable(SweepOne(phase, snapshot, active, acc, a).value.state)
  {
    hide FailActivity, QuarantineUnstarted;
    var s, r := acc.state, snapshot[a];
    if phase == Lifecycles {
      LifecycleReplayReads(s, a);
    }
    if r.attempts == [] {
      if phase != OrdinaryPhase && IsReserved(a, r.definition) {
        QuarantineSucceeds(s, a, OrphanLifecycle);
        QuarantineSucceeds(s, a, OrphanRunStopped);
      }
    } else if LatestIs(r, Running) {
      if phase == OrdinaryPhase {
        if r.definition.sideEffects == ReconcileRequired {
          OrdinaryInterruptSucceeds(s, a, OpenUnsafeActivity);
        }
      } else if IsReserved(a, r.definition) {
        ReservedInterruptSucceeds(s, a, OpenLifecycle);
        ReservedInterruptSucceeds(s, a, OpenRunStopped);
      }
    }
    SweepOneContinues(phase, snapshot, active, acc, a);
    ContinuationFits(s, SweepOne(phase, snapshot, active, acc, a).value.state, Interrupts);
  }

  lemma {:induction false} PhaseSucceeds(phase: Phase, snapshot: map<ActivityId, Record>, active: Option<string>, acc: Sweep, order: seq<ActivityId>)
    requires Sweepable(acc.state) && acc.state.projection.activities.Keys == snapshot.Keys
    requires forall i :: 0 <= i < |order| ==> order[i] in snapshot
    requires forall i, j :: 0 <= i < j < |order| ==> order[i] != order[j]
    requires forall i :: 0 <= i < |order| && InPhase(phase, order[i]) ==>
                           acc.state.projection.activities[order[i]] == snapshot[order[i]]
    ensures SweepAll(phase, snapshot, active, acc, order).Ok?
    ensures Sweepable(SweepAll(phase, snapshot, active, acc, order).value.state)
    decreases |order|
  {
    hide SweepOne, Sweepable;
    if order != [] {
      var a, rest := order[0], order[1..];
      assert forall i :: 0 <= i < |rest| ==> rest[i] == order[i + 1];
      OneStepOfPhase(phase, snapshot, active, acc, a);
      PhaseSucceeds(phase, snapshot, active, SweepOne(phase, snapshot, active, acc, a).value, rest);
    }
  }

  lemma OneStepOfPhase(phase: Phase, snapshot: map<ActivityId, Record>, active: Option<string>, acc: Sweep, a: ActivityId)
    requires Sweepable(acc.state) && acc.state.projection.activities.Keys == snapshot.Keys && a in snapshot
    requires InPhase(phase, a) ==> acc.state.projection.activities[a] == snapshot[a]
    ensures SweepOne(phase, snapshot, active, acc, a).Ok?
    ensures var next := SweepOne(phase, snapshot, active, acc, a).value.state;
            Sweepable(next) && OnlyTouches(acc.state, next, a)
  {
    if InPhase(phase, a) {
      VisitSucceeds(phase, snapshot, active, acc, a);
      VisitSettles(phase, snapshot, active, acc, a);
    }
  }

  // ---------------------------------------------------------------- the whole classification

  lemma SweepPhaseByPhase(phase: Phase, snapshot: map<ActivityId, Record>, active: Option<string>, acc: Sweep, order: seq<ActivityId>)
    requires Unvisited(phase, snapshot, acc) && Sweepable(acc.state) && Enumerates(order, snapshot)
    ensures SweepAll(phase, snapshot, active, acc, order).Ok?
    ensures var done := SweepAll(phase, snapshot, active, acc, order).value;
            Sweepable(done.state) && SameOutside(phase, acc.state, done.state)
  {
    PhaseSucceeds(phase, snapshot, active, acc, order);
    PhaseSettles(phase, snapshot, active, acc, order);
  }

  lemma LiveSweepSucceeds(s: RunState, active: Option<string>, order: seq<ActivityId>)
    requires Sweepable(s) && Enumerates(order, s.projection.activities)
    ensures SweepRun(s, active, order).Ok? && Valid(SweepRun(s, active, order).value.state)
  {
    hide SweepAll, Sweepable, Enumerates, InPhase, Unvisited, SameOutside;
    var snapshot, start := s.projection.activities, FirstSweep(s);
    StartsUnvisited(s);
    SweepPhaseByPhase(Lifecycles, snapshot, active, start, order);
    var a := SweepAll(Lifecycles, snapshot, active, start, order).value;
    StillUnvisited(Lifecycles, Recoveries, snapshot, start, a);
    SweepPhaseByPhase(Recoveries, snapshot, active, a, order);
    var b := SweepAll(Recoveries, snapshot, active, a, order).value;
    StillUnvisited(Lifecycles, CanonicalPhase, snapshot, start, a);
    StillUnvisited(Recoveries, CanonicalPhase, snapshot, a, b);
    SweepPhaseByPhase(CanonicalPhase, snapshot, active, b, order);
    var c := SweepAll(CanonicalPhase, snapshot, active, b, order).value;
    StillUnvisited(Lifecycles, OrdinaryPhase, snapshot, start, a);
    StillUnvisited(Recoveries, OrdinaryPhase, snapshot, a, b);
    StillUnvisited(CanonicalPhase, OrdinaryPhase, snapshot, b, c);
    SweepPhaseByPhase(OrdinaryPhase, snapshot, active, c, order);
    SweptIsValid(SweepAll(OrdinaryPhase, snapshot, active, c, order).value.state);
  }

  lemma SweptIsValid(s: RunState)
    requires Sweepable(s)
    ensures Valid(s)
  {
  }

  lemma StartsUnvisited(s: RunState)
    requires Sweepable(s)
    ensures forall phase: Phase :: Unvisited(phase, s.projection.activities, FirstSweep(s))
  {
  }

  /** A stopped run has nothing left open. */
  lemma TerminalIsSettled(s: RunState, active: Option<string>)
    requires Valid(s) && Terminal(s.projection.status)
    ensures AllSettled(active, s.projection)
  {
    ValidRecords(s);
    ValidStatus(s);
    forall a | a in s.projection.activities
      ensures Settled(active, a, s.projection.activities[a])
    {
      var r := s.projection.activities[a];
      assert RecordOk(s.runId, a, r);
    }
  }

  /** Classification never fails, whichever attempts a crash left open and in whatever order it visits them. */
  lemma DispositionNeverFails(s: RunState, active: Option<string>, order: seq<ActivityId>)
    requires Valid(s) && IdsFit(s.events) && Enumerates(order, s.projection.activities)
    ensures Dispose(s, active, order).Ok?
  {
    hide SweepRun, VerdictFor;
    if Terminal(s.projection.status) {
      TerminalIsSettled(s, active);
      SweepOfSettledRun(s, active, order);
    } else {
      LiveSweepSucceeds(s, active, order);
    }
    var swept := SweepRun(s, active, order).value;
    VerdictIsTotal(swept.state, swept.ambiguous, swept.reason, order);
  }

  // ---------------------------------------------------------------- runs that drivers write

  lemma {:induction false} CommittedIdsFit(s: RunState, commands: seq<Command>)
    requires Valid(s) && |s.events| == 1 && Commit(s, commands).Ok?
    ensures IdsFit(Commit(s, commands).value.events)
    decreases |commands|
  {
    hide Mutate;
    if commands == [] {
    } else {
      var earlier, c := commands[..|commands| - 1], commands[|commands| - 1];
      CommittedIdsFit(s, earlier);
      CommitValid(s, earlier);
      var prior := Commit(s, earlier).value;
      CommandContinues(prior, c);
      ContinuationFits(prior, Mutate(prior, c).value.0, MayFor(c));
    }
  }
}

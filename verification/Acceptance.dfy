/**
 Exactly when the entry points of the driver go ahead: work that may begin does begin, an audit whose time
 has come is opened and closed, and every verdict of the restart classification is honoured.
 */
module Acceptance {
  import opened Wrappers
  import opened RunLog
  import opened RunInvariants
  import opened AttemptHistory
  import opened RunOps
  import opened Disposition
  import opened DispositionFacts
  import opened RunCommands
  import opened DispositionTotality
  import opened Verdicts

  lemma AppendsExactly(s: RunState, id: EventId, kind: EventKind)
    requires Valid(s) && !IdUsed(s.events, id)
    ensures Append(s, id, kind).Ok? <==> Apply(s.runId, s.projection, kind, |s.events| + 1).Ok?
    ensures Append(s, id, kind).Ok? ==>
              var t := Append(s, id, kind).value;
              && Valid(t) && t.runId == s.runId && t.events == s.events + [Event(|s.events| + 1, id, kind)]
              && Apply(s.runId, s.projection, kind, |s.events| + 1) == Ok(t.projection)
  {
    hide Apply, Valid;
    if Append(s, id, kind).Ok? {
      AppendValid(s, id, kind);
    }
  }

  /** The identity of a start that has not happened is free. */
  lemma StartIdIsFree(s: RunState, a: ActivityId, n: nat)
    requires Valid(s) && IdsFit(s.events) && !HasAttempt(s.projection, a, n)
    ensures !IdUsed(s.events, AttemptId(a, n, StartPhase))
  {
    hide Valid;
    ValidLogAgrees(s);
    forall i | 0 <= i < |s.events|
      ensures s.events[i].id != AttemptId(a, n, StartPhase)
    {
      assert EventAgrees(s.events[i], s.projection) && IdFits(s.events[i].id, s.events[i].kind);
    }
  }

  /** In a valid run a terminal audit marker and a terminal audit are the same thing, and none is a legacy one. */
  lemma MarkersAreAudits(s: RunState)
    requires Valid(s)
    ensures CANONICAL_AUDIT in s.projection.activities ==> HasTerminalMarker(s.projection)
    ensures TerminalAuditExists(s.projection) <==> CANONICAL_AUDIT in s.projection.activities
  {
    hide Valid, AuditIntentOk, OutputOk;
    ValidRecords(s);
    if CANONICAL_AUDIT in s.projection.activities {
      assert RecordOk(s.runId, CANONICAL_AUDIT, s.projection.activities[CANONICAL_AUDIT]);
    }
    forall a | a in s.projection.activities
      ensures a.step != LegacyRunStoppedAudit
    {
      assert RecordOk(s.runId, a, s.projection.activities[a]);
    }
  }

  // ---------------------------------------------------------------- scheduling and starting

  /** Scheduling a new activity and starting it. */
  lemma NewActivityStarts(s: RunState, a: ActivityId, d: Definition)
    requires Valid(s) && IdsFit(s.events) && a !in s.projection.activities && !IdUsed(s.events, ScheduledId(a))
    requires Apply(s.runId, s.projection, ActivityScheduled(a, d), |s.events| + 1).Ok?
    requires var p := Apply(s.runId, s.projection, ActivityScheduled(a, d), |s.events| + 1).value;
             Apply(s.runId, p, AttemptStarted(a, 1), |s.events| + 2).Ok?
    ensures var t := Append(s, ScheduledId(a), ActivityScheduled(a, d));
            t.Ok? && DecideActivity(t.value, a).Ok? && DecideActivity(t.value, a).value.1 == Execute(a, 1, d.idempotencyKey)
  {
    hide Valid, ReservedScheduleOk, AttemptStartOk, HasTerminalMarker;
    AppendsExactly(s, ScheduledId(a), ActivityScheduled(a, d));
    var t := Append(s, ScheduledId(a), ActivityScheduled(a, d)).value;
    StartIdIsFree(s, a, 1);
    assert !IdUsed(t.events, AttemptId(a, 1, StartPhase));
    assert t.projection.activities[a] == Record(d, |s.events| + 1, []);
    AppendsExactly(t, AttemptId(a, 1, StartPhase), AttemptStarted(a, 1));
  }

  /**
   An ordinary activity that is not known yet begins if and only if its names are valid, an idempotent one
   has its key, the run is active, and no terminal audit has been scheduled.
   */
  lemma OrdinaryBeginsExactly(s: RunState, a: ActivityId, d: Definition)
    requires Valid(s) && IdsFit(s.events) && a.step.Ordinary? && a !in s.projection.activities
    requires !IdUsed(s.events, ScheduledId(a))
    ensures MutateBegin(s, a, d).Ok? <==>
              && ValidIdentifier(a.key) && ValidIdentifier(a.step.name)
              && (d.sideEffects == Idempotent ==> d.idempotencyKey.Some? && d.idempotencyKey.value != "")
              && s.projection.status == Active && !HasTerminalMarker(s.projection)
    ensures MutateBegin(s, a, d).Ok? ==> MutateBegin(s, a, d).value.1 == Decided(Execute(a, 1, d.idempotencyKey))
  {
    hide Valid, DecideActivity, ReservedScheduleOk;
    MarkersAreAudits(s);
    OrdinarySchedule(s.runId, s.projection, a, d, |s.events| + 1);
    if Apply(s.runId, s.projection, ActivityScheduled(a, d), |s.events| + 1).Ok? {
      NewActivityStarts(s, a, d);
    } else {
      AppendsExactly(s, ScheduledId(a), ActivityScheduled(a, d));
    }
  }

  lemma OrdinarySchedule(runId: string, p: Projection, a: ActivityId, d: Definition, sequence: nat)
    requires a.step.Ordinary? && a !in p.activities
    ensures var r := Apply(runId, p, ActivityScheduled(a, d), sequence);
            && (r.Ok? <==>
                  && (d.sideEffects == Idempotent ==> d.idempotencyKey.Some? && d.idempotencyKey.value != "")
                  && p.status == Active && !HasTerminalMarker(p))
            && (r.Ok? ==> Apply(runId, r.value, AttemptStarted(a, 1), sequence + 1).Ok?)
  {
    var r := Apply(runId, p, ActivityScheduled(a, d), sequence);
    if r.Ok? {
      assert forall b :: b in r.value.activities && b != a ==> b in p.activities && r.value.activities[b] == p.activities[b];
      assert !HasTerminalMarker(r.value);
    }
  }

  // ---------------------------------------------------------------- the invocation lifecycle

  lemma LifecycleSchedule(runId: string, p: Projection, invocationId: string, sequence: nat)
    requires LifecycleOf(invocationId) !in p.activities
    ensures var a, d := LifecycleOf(invocationId), LifecycleDefinition(runId, invocationId);
            var r := Apply(runId, p, ActivityScheduled(a, d), sequence);
            && (r.Ok? <==> p.status == Active && ValidIdentifier(invocationId))
            && (r.Ok? ==> Apply(runId, r.value, AttemptStarted(a, 1), sequence + 1).Ok?)
  {
    hide HasTerminalMarker;
  }

  /**
   A new invocation opens its lifecycle if and only if its name is valid, the run is active, no other
   invocation is open and no terminal audit has been scheduled.
   */
  lemma LifecycleBeginsExactly(s: RunState, invocationId: string)
    requires Valid(s) && IdsFit(s.events) && LifecycleOf(invocationId) !in s.projection.activities
    requires !IdUsed(s.events, ScheduledId(LifecycleOf(invocationId)))
    ensures MutateBeginLifecycle(s, invocationId).Ok? <==>
              && ValidIdentifier(invocationId) && s.projection.status == Active && CANONICAL_AUDIT !in s.projection.activities
              && forall a :: a in s.projection.activities && a.step == Lifecycle ==> !LatestIs(s.projection.activities[a], Running)
    ensures MutateBeginLifecycle(s, invocationId).Ok? ==>
              MutateBeginLifecycle(s, invocationId).value.1 == Decided(Execute(LifecycleOf(invocationId), 1, None))
  {
    hide Valid, DecideActivity, LatestIs, Apply;
    MarkersAreAudits(s);
    LifecycleSchedule(s.runId, s.projection, invocationId, |s.events| + 1);
    var a, d := LifecycleOf(invocationId), LifecycleDefinition(s.runId, invocationId);
    if Apply(s.runId, s.projection, ActivityScheduled(a, d), |s.events| + 1).Ok? {
      NewActivityStarts(s, a, d);
    } else {
      AppendsExactly(s, ScheduledId(a), ActivityScheduled(a, d));
    }
  }

  /** An ExecuteRun verdict is honoured: every new invocation with a valid name can open its lifecycle. */
  lemma ExecuteVerdictIsHonoured(s: RunState, order: seq<ActivityId>, invocationId: string)
    requires Valid(s) && IdsFit(s.events) && Enumerates(order, s.projection.activities)
    requires Dispose(s, None, order).Ok? && Dispose(s, None, order).value.1 == ExecuteRun
    requires LifecycleOf(invocationId) !in s.projection.activities
    requires !IdUsed(s.events, ScheduledId(LifecycleOf(invocationId)))
    ensures Dispose(s, None, order).value.0 == s
    ensures MutateBeginLifecycle(s, invocationId).Ok? <==> ValidIdentifier(invocationId)
  {
    hide Dispose, Valid, Enumerates, MutateBeginLifecycle, Blocked, SomeUndelivered;
    ExecutesExactly(s, None, order);
    DispositionIsComplete(s, None, order);
    LifecycleBeginsExactly(s, invocationId);
    forall a | a in s.projection.activities && a.step == Lifecycle
      ensures !LatestIs(s.projection.activities[a], Running)
    {
      assert Settled(None, a, s.projection.activities[a]);
    }
  }

  // ---------------------------------------------------------------- the terminal audits

  /** What an audit's envelope has to say to be scheduled in this run. */
  predicate EnvelopeFits(runId: string, replay: Replay, kind: AuditKind) {
    && replay.schemaVersion == 1 && replay.kind == kind && replay.runStoppedSequence > 0
    && replay.auditReason != "" && replay.receipt.reason != ""
    && (kind != Recovery ==> replay.auditTurns == replay.receipt.turns && replay.auditReason == replay.receipt.reason)
    && replay.binding.schemaVersion == 1 && replay.binding.maxPreviewBytes > 0
    && (replay.binding.deliveryId.Some? ==> ValidIdentifier(replay.binding.deliveryId.value))
    && replay.auditRunId == runId && ValidIdentifier(runId) && ValidIdentifier(replay.invocationId)
  }

  lemma EnvelopeOfIntent(runId: string, a: ActivityId, replay: Replay, kind: AuditKind)
    requires kind == Canonical || (kind == Recovery && a.key == replay.invocationId)
    ensures EnvelopeFits(runId, replay, kind) <==>
              EnvelopeOk(replay, kind, runId, Some(replay.invocationId)) && AuditIntentOk(runId, a, AuditDefinition(replay), kind)
  {
  }

  lemma CanonicalSchedule(runId: string, p: Projection, replay: Replay, sequence: nat)
    requires CANONICAL_AUDIT !in p.activities
    ensures var d := AuditDefinition(replay);
            var r := Apply(runId, p, ActivityScheduled(CANONICAL_AUDIT, d), sequence);
            && (r.Ok? <==>
                  && p.status == Active && AuditIntentOk(runId, CANONICAL_AUDIT, d, Canonical)
                  && OnlyLifecycleRunning(runId, p.activities, replay.invocationId))
            && (r.Ok? ==> Apply(runId, r.value, AttemptStarted(CANONICAL_AUDIT, 1), sequence + 1).Ok?)
  {
    hide HasTerminalMarker, AuditIntentOk;
    var r := Apply(runId, p, ActivityScheduled(CANONICAL_AUDIT, AuditDefinition(replay)), sequence);
    if r.Ok? {
      assert OnlyLifecycleRunning(runId, r.value.activities, replay.invocationId);
    }
  }

  /** A running lifecycle has no committed outcome. */
  lemma RunningLifecycleIsOpen(s: RunState, invocationId: string)
    requires Valid(s) && OnlyLifecycleRunning(s.runId, s.projection.activities, invocationId)
    ensures CompletedOutput(s.projection.activities[LifecycleOf(invocationId)]).None?
    ensures !RunningOutside(s.projection, {Lifecycle})
  {
    hide Valid, ReservedDefinitionOk, OutputOk;
    ValidRecords(s);
    var a := LifecycleOf(invocationId);
    var r := s.projection.activities[a];
    assert RecordOk(s.runId, a, r);
    assert CompletedAmong(r.attempts[..0]) == None;
  }

  /**
   The canonical RunStopped audit opens if and only if its envelope fits this run, the run is active, and
   the lifecycle of its invocation is running and nothing else is.
   */
  lemma RunStoppedBeginsExactly(s: RunState, replay: Replay)
    requires Valid(s) && IdsFit(s.events) && CANONICAL_AUDIT !in s.projection.activities
    requires !IdUsed(s.events, ScheduledId(CANONICAL_AUDIT))
    ensures MutateBeginRunStopped(s, replay).Ok? <==>
              && EnvelopeFits(s.runId, replay, Canonical) && s.projection.status == Active
              && OnlyLifecycleRunning(s.runId, s.projection.activities, replay.invocationId)
    ensures MutateBeginRunStopped(s, replay).Ok? ==>
              MutateBeginRunStopped(s, replay).value.1 == Decided(Execute(CANONICAL_AUDIT, 1, None))
  {
    hide Valid, DecideActivity, Apply, EnvelopeOk, AuditIntentOk, EnvelopeFits, CompletedOutput, RunningOutside, HasTerminalMarker;
    MarkersAreAudits(s);
    EnvelopeOfIntent(s.runId, CANONICAL_AUDIT, replay, Canonical);
    CanonicalSchedule(s.runId, s.projection, replay, |s.events| + 1);
    var d := AuditDefinition(replay);
    if Apply(s.runId, s.projection, ActivityScheduled(CANONICAL_AUDIT, d), |s.events| + 1).Ok? {
      NewActivityStarts(s, CANONICAL_AUDIT, d);
      RunningLifecycleIsOpen(s, replay.invocationId);
    } else {
      AppendsExactly(s, ScheduledId(CANONICAL_AUDIT), ActivityScheduled(CANONICAL_AUDIT, d));
    }
    assert ValidIdentifier(CANONICAL_AUDIT.key);
  }

  /**
   A recovery audit opens if and only if its envelope fits, the run is active, the canonical receipt is
   committed, the same as the replay's and from another invocation, and only its own lifecycle is running.
   */
  lemma RecoveryBeginsExactly(s: RunState, replay: Replay)
    requires Valid(s) && IdsFit(s.events) && RecoveryOf(replay.invocationId) !in s.projection.activities
    requires !IdUsed(s.events, ScheduledId(RecoveryOf(replay.invocationId)))
    ensures MutateBeginRecovery(s, replay).Ok? <==>
              && EnvelopeFits(s.runId, replay, Recovery) && s.projection.status == Active
              && OnlyLifecycleRunning(s.runId, s.projection.activities, replay.invocationId)
              && CanonicalReceiptSupersedes(s.projection.activities, replay)
    ensures MutateBeginRecovery(s, replay).Ok? ==>
              MutateBeginRecovery(s, replay).value.1 == Decided(Execute(RecoveryOf(replay.invocationId), 1, None))
  {
    hide Valid, DecideActivity, Apply, EnvelopeOk, AuditIntentOk, EnvelopeFits, CompletedOutput, HasTerminalMarker, OnlyLifecycleRunning;
    var a, d := RecoveryOf(replay.invocationId), AuditDefinition(replay);
    EnvelopeOfIntent(s.runId, a, replay, Recovery);
    RecoverySchedule(s.runId, s.projection, replay, |s.events| + 1);
    if CANONICAL_AUDIT in s.projection.activities {
      StoredReceiptMatchesIntent(s);
      CanonicalReplayReads(s);
    }
    if Apply(s.runId, s.projection, ActivityScheduled(a, d), |s.events| + 1).Ok? {
      NewActivityStarts(s, a, d);
    } else {
      AppendsExactly(s, ScheduledId(a), ActivityScheduled(a, d));
    }
    if EnvelopeFits(s.runId, replay, Recovery) {
      EnvelopeNames(s.runId, replay, Recovery);
    }
  }

  lemma EnvelopeNames(runId: string, replay: Replay, kind: AuditKind)
    requires EnvelopeFits(runId, replay, kind)
    ensures ValidIdentifier(replay.invocationId)
  {
  }

  /** The replay stored with the canonical audit can always be read back. */
  lemma CanonicalReplayReads(s: RunState)
    requires Valid(s) && CANONICAL_AUDIT in s.projection.activities
    ensures var r := s.projection.activities[CANONICAL_AUDIT];
            r.definition.input.AuditInput? && ReplayFromRecord(CANONICAL_AUDIT, r, Canonical, s.runId) == Ok(r.definition.input.replay)
  {
    hide Valid;
    ValidRecords(s);
    ValidSequences(s);
    assert RecordOk(s.runId, CANONICAL_AUDIT, s.projection.activities[CANONICAL_AUDIT]);
  }

  lemma RecoverySchedule(runId: string, p: Projection, replay: Replay, sequence: nat)
    requires RecoveryOf(replay.invocationId) !in p.activities
    ensures var a, d := RecoveryOf(replay.invocationId), AuditDefinition(replay);
            var r := Apply(runId, p, ActivityScheduled(a, d), sequence);
            && (r.Ok? <==>
                  && p.status == Active && AuditIntentOk(runId, a, d, Recovery)
                  && OnlyLifecycleRunning(runId, p.activities, replay.invocationId)
                  && CanonicalReceiptSupersedes(p.activities, replay))
            && (r.Ok? ==> Apply(runId, r.value, AttemptStarted(a, 1), sequence + 1).Ok?)
  {
    hide HasTerminalMarker, AuditIntentOk, CompletedOutput;
    var a := RecoveryOf(replay.invocationId);
    var r := Apply(runId, p, ActivityScheduled(a, AuditDefinition(replay)), sequence);
    if r.Ok? {
      assert OnlyLifecycleRunning(runId, r.value.activities, replay.invocationId);
      assert CanonicalReceiptSupersedes(r.value.activities, replay);
    }
  }

  // ---------------------------------------------------------------- completing

  /** A result is taken if and only if its attempt is running or has just this result, and the run goes on. */
  lemma OrdinaryCompletesExactly(s: RunState, a: ActivityId, n: nat, output: Value)
    requires Valid(s) && IdsFit(s.events) && a.step.Ordinary?
    ensures CompleteActivity(s, a, n, output).Ok? <==>
              && !Terminal(s.projection.status) && HasAttempt(s.projection, a, n)
              && var attempt := s.projection.activities[a].attempts[n - 1];
              attempt.status == Running || (attempt.status == Completed && attempt.output == Some(output))
  {
    hide Valid, CompletedOutput;
    var id, kind := AttemptId(a, n, CompletePhase), AttemptCompleted(a, n, output);
    if HasAttempt(s.projection, a, n) ==> s.projection.activities[a].attempts[n - 1].status == Running {
      OutcomeIdIsFree(s, a, n, CompletePhase);
      AppendsExactly(s, id, kind);
    } else {
      ValidLogAgrees(s);
      forall i | 0 <= i < |s.events| && s.events[i].kind == kind
        ensures s.projection.activities[a].attempts[n - 1].status == Completed
      {
        assert EventAgrees(s.events[i], s.projection);
      }
    }
  }

  /** The pair of a running audit and its running lifecycle can always be completed together. */
  lemma PairCompletes(s: RunState, replay: Replay, n: nat, m: nat)
    requires Valid(s) && IdsFit(s.events) && !Terminal(s.projection.status) && (replay.kind == Canonical || replay.kind == Recovery)
    requires var audit, lifecycle := AuditOf(replay), LifecycleOf(replay.invocationId);
             && HasAttempt(s.projection, audit, n) && s.projection.activities[audit].attempts[n - 1].status == Running
             && HasAttempt(s.projection, lifecycle, m) && s.projection.activities[lifecycle].attempts[m - 1].status == Running
             && s.projection.activities[audit].definition.input.AuditInput?
             && s.projection.activities[audit].definition.input.replay == replay
    ensures MutateCompleteLinked(s, replay.kind, AuditOf(replay), n, LifecycleOf(replay.invocationId), m, replay).Ok?
  {
    hide Valid, Apply, CompletionOk, EnvelopeOk;
    var audit, lifecycle := AuditOf(replay), LifecycleOf(replay.invocationId);
    RunningAuditReads(s, replay);
    AuditCompletion(s, replay, n);
    OutcomeIdIsFree(s, audit, n, CompletePhase);
    AppendsExactly(s, AttemptId(audit, n, CompletePhase), AttemptCompleted(audit, n, ExpectedOutput(replay)));
    var t := Append(s, AttemptId(audit, n, CompletePhase), AttemptCompleted(audit, n, ExpectedOutput(replay))).value;
    OutcomeIdIsFree(s, lifecycle, m, CompletePhase);
    assert !IdUsed(t.events, AttemptId(lifecycle, m, CompletePhase));
    LifecycleClosure(s, t, replay, m);
    AppendsExactly(t, AttemptId(lifecycle, m, CompletePhase), AttemptCompleted(lifecycle, m, AuditClosed(replay)));
  }

  lemma RunningAuditReads(s: RunState, replay: Replay)
    requires Valid(s) && (replay.kind == Canonical || replay.kind == Recovery) && AuditOf(replay) in s.projection.activities
    requires var d := s.projection.activities[AuditOf(replay)].definition; d.input.AuditInput? && d.input.replay == replay
    ensures EnvelopeOk(replay, replay.kind, s.runId, Some(replay.invocationId)) && replay.auditRunId == s.runId
    ensures ValidReplay(replay, replay.kind)
    ensures s.projection.activities[AuditOf(replay)].definition.input.expectedOutput == Sha(ExpectedOutput(replay))
  {
    hide Valid;
    ValidRecords(s);
    ValidSequences(s);
    assert RecordOk(s.runId, AuditOf(replay), s.projection.activities[AuditOf(replay)]);
  }

  lemma AuditCompletion(s: RunState, replay: Replay, n: nat)
    requires Valid(s) && !Terminal(s.projection.status) && (replay.kind == Canonical || replay.kind == Recovery)
    requires var audit := AuditOf(replay);
             && HasAttempt(s.projection, audit, n) && s.projection.activities[audit].attempts[n - 1].status == Running
             && s.projection.activities[audit].definition.input.AuditInput?
             && s.projection.activities[audit].definition.input.replay == replay
    ensures var audit := AuditOf(replay);
            var r := Apply(s.runId, s.projection, AttemptCompleted(audit, n, ExpectedOutput(replay)), |s.events| + 1);
            && r.Ok? && r.value.status == s.projection.status
            && audit in r.value.activities && CompletedOutput(r.value.activities[audit]) == Some(ExpectedOutput(replay))
            && r.value.activities[audit].definition == s.projection.activities[audit].definition
            && (forall b :: b in s.projection.activities && b != audit ==> b in r.value.activities && r.value.activities[b] == s.projection.activities[b])
  {
    hide Valid, AuditIntentOk, OutputOk;
    RunningAuditReads(s, replay);
    ValidRecords(s);
    var audit := AuditOf(replay);
    assert RecordOk(s.runId, audit, s.projection.activities[audit]);
  }

  lemma LifecycleClosure(s: RunState, t: RunState, replay: Replay, m: nat)
    requires Valid(s) && t.runId == s.runId && !Terminal(t.projection.status) && (replay.kind == Canonical || replay.kind == Recovery)
    requires ValidReplay(replay, replay.kind) && replay.auditRunId == s.runId
    requires var audit, lifecycle := AuditOf(replay), LifecycleOf(replay.invocationId);
             && HasAttempt(s.projection, lifecycle, m) && s.projection.activities[lifecycle].attempts[m - 1].status == Running
             && lifecycle in t.projection.activities && t.projection.activities[lifecycle] == s.projection.activities[lifecycle]
             && audit in t.projection.activities && CompletedOutput(t.projection.activities[audit]) == Some(ExpectedOutput(replay))
             && t.projection.activities[audit].definition.input.AuditInput?
             && t.projection.activities[audit].definition.input.replay == replay
             && t.projection.activities[audit].definition.input.expectedOutput == Sha(ExpectedOutput(replay))
    ensures Apply(t.runId, t.projection, AttemptCompleted(LifecycleOf(replay.invocationId), m, AuditClosed(replay)), |t.events| + 1).Ok?
  {
    hide Valid, CompletedOutput, OutputOk;
    ValidRecords(s);
    var lifecycle := LifecycleOf(replay.invocationId);
    assert RecordOk(s.runId, lifecycle, s.projection.activities[lifecycle]);
  }

  // ---------------------------------------------------------------- retrying a terminal audit

  /** No attempt is running in a settled run that carries a terminal audit. */
  lemma SettledMarkedRunIsIdle(s: RunState)
    requires Valid(s) && AllSettled(None, s.projection) && HasTerminalMarker(s.projection)
    ensures !RunningOutside(s.projection, {})
  {
    hide Valid, AuditIntentOk, OutputOk;
    ValidRecords(s);
    ValidStatus(s);
    forall a | a in s.projection.activities
      ensures !LatestIs(s.projection.activities[a], Running)
    {
      var r := s.projection.activities[a];
      assert RecordOk(s.runId, a, r) && Settled(None, a, r);
      assert a.step.Ordinary? ==> !RunningIn(r);
    }
  }

  lemma RetryStart(s: RunState, a: ActivityId)
    requires Valid(s) && a in s.projection.activities && s.projection.status == Active
    requires RetryAuthorized(s.projection.activities[a]) && (a.step == RunStoppedAudit || a.step == RecoveryAudit)
    requires IsReserved(a, s.projection.activities[a].definition)
    ensures var r := s.projection.activities[a];
            Apply(s.runId, s.projection, AttemptStarted(a, |r.attempts| + 1), |s.events| + 1).Ok?
            <==> AuditRetryAuthorized(s.runId, s.projection.activities, a, r.definition)
  {
    hide Valid, AuditRetryAuthorized, HasTerminalMarker, IsReserved;
  }

  /**
   A RetryTerminalAudit verdict is honoured: beginning that retry starts the next attempt of the audit if
   and only if the lifecycle of its invocation was reconciled with exactly this replay, and attempts are
   not exhausted.
   */
  lemma RetryVerdictIsHonoured(s: RunState, order: seq<ActivityId>, replay: Replay)
    requires Valid(s) && IdsFit(s.events) && Enumerates(order, s.projection.activities)
    requires Dispose(s, None, order).Ok? && Dispose(s, None, order).value.1 == RetryTerminalAudit(replay)
    ensures AuditOf(replay) in s.projection.activities
    ensures var r := s.projection.activities[AuditOf(replay)];
            && (MutateBeginRetry(s, replay).Ok? <==>
                  AuditRetryAuthorized(s.runId, s.projection.activities, AuditOf(replay), r.definition) && |r.attempts| < MAX_ATTEMPTS)
            && (MutateBeginRetry(s, replay).Ok? ==>
                  MutateBeginRetry(s, replay).value.1 == RetryStarted(AuditOf(replay), |r.attempts| + 1))
  {
    hide Dispose, Valid, Enumerates, SomeUndelivered, MutateBeginRetry, AuditRetryAuthorized;
    VerdictIsExact(s, None, order, RetryTerminalAudit(replay));
    DispositionIsComplete(s, None, order);
    var a :| a in s.projection.activities && RetryFor(s.projection, replay, a);
    RetriedAuditIsNamed(s, replay, a);
    UndeliveredIsRetryable(s, None, a);
    RetryIsAccepted(s, replay);
  }

  lemma RetriedAuditIsNamed(s: RunState, replay: Replay, a: ActivityId)
    requires Valid(s) && a in s.projection.activities && RetryFor(s.projection, replay, a)
    ensures a == AuditOf(replay) && (replay.kind == Canonical || replay.kind == Recovery)
    ensures HasTerminalMarker(s.projection)
  {
    hide Valid, OutputOk, SomeUndelivered, CompletedOutput;
    ValidRecords(s);
    assert RecordOk(s.runId, a, s.projection.activities[a]);
  }

  lemma RetryIsAccepted(s: RunState, replay: Replay)
    requires Valid(s) && IdsFit(s.events) && AllSettled(None, s.projection) && HasTerminalMarker(s.projection)
    requires s.projection.status == Active && (replay.kind == Canonical || replay.kind == Recovery)
    requires var a := AuditOf(replay);
             && Undelivered(s.projection, a) && RetryAuthorized(s.projection.activities[a])
             && IsReserved(a, s.projection.activities[a].definition)
             && s.projection.activities[a].definition.input.AuditInput?
             && s.projection.activities[a].definition.input.replay == replay
    ensures var r := s.projection.activities[AuditOf(replay)];
            && (MutateBeginRetry(s, replay).Ok? <==>
                  AuditRetryAuthorized(s.runId, s.projection.activities, AuditOf(replay), r.definition) && |r.attempts| < MAX_ATTEMPTS)
            && (MutateBeginRetry(s, replay).Ok? ==>
                  MutateBeginRetry(s, replay).value.1 == RetryStarted(AuditOf(replay), |r.attempts| + 1))
  {
    hide Valid, Apply, AllSettled, HasTerminalMarker, EnvelopeOk, CompletedOutput, IsReserved, RunningOutside, AuditRetryAuthorized;
    var a := AuditOf(replay);
    var r := s.projection.activities[a];
    SettledMarkedRunIsIdle(s);
    RunningAuditReads(s, replay);
    AuditReplayReads(s, replay);
    RetryStart(s, a);
    StartIdIsFree(s, a, |r.attempts| + 1);
    AppendsExactly(s, AttemptId(a, |r.attempts| + 1, StartPhase), AttemptStarted(a, |r.attempts| + 1));
    if AuditRetryAuthorized(s.runId, s.projection.activities, a, r.definition) {
      AuthorizedIsStable(s.runId, s.projection.activities, a, r.definition);
    }
  }

  lemma AuthorizedIsStable(runId: string, acts: map<ActivityId, Record>, a: ActivityId, d: Definition)
    requires AuditRetryAuthorized(runId, acts, a, d)
    ensures d.input.AuditInput? && StableBinding(d.input.replay.binding)
  {
  }

  lemma AuditReplayReads(s: RunState, replay: Replay)
    requires Valid(s) && (replay.kind == Canonical || replay.kind == Recovery) && AuditOf(replay) in s.projection.activities
    requires var d := s.projection.activities[AuditOf(replay)].definition; d.input.AuditInput? && d.input.replay == replay
    ensures ReplayFromRecord(AuditOf(replay), s.projection.activities[AuditOf(replay)], replay.kind, s.runId) == Ok(replay)
    ensures ValidIdentifier(AuditOf(replay).key) && s.projection.activities[AuditOf(replay)].definition.sideEffects == ReconcileRequired
  {
    hide Valid;
    ValidRecords(s);
    ValidSequences(s);
    assert RecordOk(s.runId, AuditOf(replay), s.projection.activities[AuditOf(replay)]);
  }

  /** A retry starts only when nothing at all is running, over a binding that is stable and fails closed. */
  lemma RetryStartsAlone(s: RunState, replay: Replay, a: ActivityId)
    requires MutateBeginRetry(s, replay).Ok? && a in s.projection.activities
    ensures !LatestIs(s.projection.activities[a], Running)
    ensures AuditOf(replay) in s.projection.activities && RetryAuthorized(s.projection.activities[AuditOf(replay)])
    ensures replay.binding.deliveryId.Some? && replay.binding.sinkCount > 0 && replay.binding.failClosed
  {
    hide PrepareActivity, EnvelopeOk, LatestIs;
    assert !(a.step !in {} && LatestIs(s.projection.activities[a], Running));
  }
}

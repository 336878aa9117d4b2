/**
 A concrete run that has stopped and only waits to be finalized: seven events, from its start to the
 paired completion of its RunStopped audit and its lifecycle.
 */
module FinalizableRun {
  import opened Wrappers
  import opened RunLog
  import opened Disposition
  import opened DispositionFacts
  import opened RunCommands
  import opened TerminalProtocol

  const RECEIPT := Receipt(1, "stop", 0)
  const REPLAY := Replay(1, Canonical, RECEIPT, "r", "i", 1, 1, "stop", AuditBinding(1, Some("d"), 1, true, 1))
  const LIFECYCLE := LifecycleOf("i")
  const LIFECYCLE_INTENT := LifecycleDefinition("r", "i")
  const AUDIT_INTENT := AuditDefinition(REPLAY)

  function Opened(sequence: nat): Attempt {
    Attempt(Running, sequence, None, None, None, false, false)
  }

  function Closed(started: nat, finished: nat, output: Value): Attempt {
    Attempt(Completed, started, Some(finished), Some(output), None, false, false)
  }

  function With(lifecycle: seq<Attempt>, audit: Option<seq<Attempt>>): Projection {
    var acts := map[LIFECYCLE := Record(LIFECYCLE_INTENT, 2, lifecycle)];
    ROOT.(activities := if audit.None? then acts else acts[CANONICAL_AUDIT := Record(AUDIT_INTENT, 4, audit.value)])
  }

  lemma IntentsAreValid()
    ensures ValidIdentifier("i") && ValidIdentifier("r")
    ensures ReservedScheduleOk("r", map[], LIFECYCLE, LIFECYCLE_INTENT)
    ensures AuditIntentOk("r", CANONICAL_AUDIT, AUDIT_INTENT, Canonical)
  {
  }

  lemma LifecycleOpens()
    ensures Apply("r", ROOT, ActivityScheduled(LIFECYCLE, LIFECYCLE_INTENT), 2) == Ok(With([], None))
    ensures Apply("r", With([], None), AttemptStarted(LIFECYCLE, 1), 3) == Ok(With([Opened(3)], None))
  {
    IntentsAreValid();
    assert [] + [Opened(3)] == [Opened(3)];
    assert ROOT.activities[LIFECYCLE := Record(LIFECYCLE_INTENT, 2, [])] == With([], None).activities;
    assert With([Opened(3)], None).activities == With([], None).activities[LIFECYCLE := Record(LIFECYCLE_INTENT, 2, [Opened(3)])];
  }

  lemma AuditIsScheduled()
    ensures Apply("r", With([Opened(3)], None), ActivityScheduled(CANONICAL_AUDIT, AUDIT_INTENT), 4)
         == Ok(With([Opened(3)], Some([])))
  {
    IntentsAreValid();
    assert OnlyLifecycleRunning("r", With([Opened(3)], None).activities, "i");
  }

  lemma AuditStarts()
    ensures Apply("r", With([Opened(3)], Some([])), AttemptStarted(CANONICAL_AUDIT, 1), 5)
         == Ok(With([Opened(3)], Some([Opened(5)])))
  {
    IntentsAreValid();
    var scheduled := With([Opened(3)], Some([])).activities;
    assert OnlyLifecycleRunning("r", scheduled, "i");
    assert [] + [Opened(5)] == [Opened(5)];
    assert scheduled[CANONICAL_AUDIT := Record(AUDIT_INTENT, 4, [Opened(5)])]
        == With([Opened(3)], Some([Opened(5)])).activities;
  }

  const DELIVERED := Closed(5, 6, ReceiptValue(RECEIPT))
  const ENDED := Closed(3, 7, AuditClosed(REPLAY))
  const STOPPED := With([ENDED], Some([DELIVERED]))

  lemma AuditCompletes()
    ensures Apply("r", With([Opened(3)], Some([Opened(5)])), AttemptCompleted(CANONICAL_AUDIT, 1, ReceiptValue(RECEIPT)), 6)
         == Ok(With([Opened(3)], Some([DELIVERED])))
  {
    var open := With([Opened(3)], Some([Opened(5)])).activities;
    assert [Opened(5)][0 := DELIVERED] == [DELIVERED];
    assert open[CANONICAL_AUDIT := Record(AUDIT_INTENT, 4, [DELIVERED])] == With([Opened(3)], Some([DELIVERED])).activities;
  }

  lemma LifecycleCompletes()
    ensures Apply("r", With([Opened(3)], Some([DELIVERED])), AttemptCompleted(LIFECYCLE, 1, AuditClosed(REPLAY)), 7)
         == Ok(STOPPED)
  {
    IntentsAreValid();
    var open := With([Opened(3)], Some([DELIVERED])).activities;
    assert [Opened(3)][0 := ENDED] == [ENDED];
    assert LinkedAudit(open, REPLAY, CANONICAL_AUDIT);
    assert open[LIFECYCLE := Record(LIFECYCLE_INTENT, 2, [ENDED])] == STOPPED.activities;
  }

  const LOG: seq<Event> := [
    Event(1, StartId, RunStarted("s", Sync)),
    Event(2, ScheduledId(LIFECYCLE), ActivityScheduled(LIFECYCLE, LIFECYCLE_INTENT)),
    Event(3, AttemptId(LIFECYCLE, 1, StartPhase), AttemptStarted(LIFECYCLE, 1)),
    Event(4, ScheduledId(CANONICAL_AUDIT), ActivityScheduled(CANONICAL_AUDIT, AUDIT_INTENT)),
    Event(5, AttemptId(CANONICAL_AUDIT, 1, StartPhase), AttemptStarted(CANONICAL_AUDIT, 1)),
    Event(6, AttemptId(CANONICAL_AUDIT, 1, CompletePhase), AttemptCompleted(CANONICAL_AUDIT, 1, ReceiptValue(RECEIPT))),
    Event(7, AttemptId(LIFECYCLE, 1, CompletePhase), AttemptCompleted(LIFECYCLE, 1, AuditClosed(REPLAY)))]

  const RUN := RunState("s", "r", Sync, LOG, STOPPED)

  /** One more event of the log, applied to what the earlier ones rebuild to. */
  lemma Grow(n: nat, p: Projection, q: Projection)
    requires 1 <= n < 7 && Rebuild("s", "r", Sync, LOG[..n]) == Ok(RunState("s", "r", Sync, LOG[..n], p))
    requires Apply("r", p, LOG[n].kind, n + 1) == Ok(q)
    ensures Rebuild("s", "r", Sync, LOG[..n + 1]) == Ok(RunState("s", "r", Sync, LOG[..n + 1], q))
  {
    hide Apply;
    assert LOG[..n + 1][..n] == LOG[..n];
    assert !IdUsed(LOG[..n], LOG[n].id);
  }

  lemma RunIsValid()
    ensures Valid(RUN)
  {
    hide Apply;
    IntentsAreValid();
    assert LOG[..1] == [Event(1, StartId, RunStarted("s", Sync))];
    LifecycleOpens();
    Grow(1, ROOT, With([], None));
    Grow(2, With([], None), With([Opened(3)], None));
    AuditIsScheduled();
    AuditStarts();
    Grow(3, With([Opened(3)], None), With([Opened(3)], Some([])));
    Grow(4, With([Opened(3)], Some([])), With([Opened(3)], Some([Opened(5)])));
    AuditCompletes();
    Grow(5, With([Opened(3)], Some([Opened(5)])), With([Opened(3)], Some([DELIVERED])));
    LifecycleCompletes();
    Grow(6, With([Opened(3)], Some([DELIVERED])), STOPPED);
    assert LOG[..7] == LOG;
  }

  /** Restarting a worker on this run finds that it only has to be finalized. */
  lemma RunWaitsForFinalization()
    ensures Valid(RUN) && Enumerates([LIFECYCLE, CANONICAL_AUDIT], RUN.projection.activities)
    ensures Dispose(RUN, None, [LIFECYCLE, CANONICAL_AUDIT]) == Ok((RUN, FinalizeTerminal(RECEIPT)))
  {
    hide SweepRun, Valid;
    RunIsValid();
    var order := [LIFECYCLE, CANONICAL_AUDIT];
    assert order[0] == LIFECYCLE && order[1] == CANONICAL_AUDIT;
    assert AllSettled(None, STOPPED) && !Blocked(STOPPED);
    SweepOfSettledRun(RUN, None, order);
    SweepRunSettles(RUN, None, order);
    assert OpenRecovery(STOPPED.activities, order[1..]) == None;
    assert ValidatedReceipt(STOPPED.activities[CANONICAL_AUDIT]) == Ok(Some(ReceiptValue(RECEIPT)));
  }

  lemma StopIdentitiesAreFree()
    ensures StopIdsFree(RUN, RunCompleted) && !IdUsed(LOG, Custom("host"))
    ensures !IdUsed(LOG, CheckpointEventId(StopCheckpoint(RunCompleted)))
  {
  }

  /** It can be finalized; and never again, while it is active, once a host has committed a checkpoint under the runtime's key. */
  lemma RunBlockedByHost()
    ensures MutateFinalize(RUN, RECEIPT).Ok?
    ensures WithStopKeyTaken(RUN, RunCompleted, "host").Ok?
    ensures var blocked := WithStopKeyTaken(RUN, RunCompleted, "host").value;
            && Dispose(blocked, None, [LIFECYCLE, CANONICAL_AUDIT]) == Ok((blocked, FinalizeTerminal(RECEIPT)))
            && MutateFinalize(blocked, RECEIPT).Err?
            && forall later :: Valid(later) && Extends(later, blocked) && later.projection.status == Active
                               ==> MutateFinalize(later, RECEIPT).Err?
  {
    hide Dispose, MutateFinalize, WithStopKeyTaken, Valid, StopIdsFree, Enumerates, IdUsed;
    RunWaitsForFinalization();
    StopIdentitiesAreFree();
    FinalizeVerdictIsHonoured(RUN, [LIFECYCLE, CANONICAL_AUDIT], RECEIPT);
    HostCheckpointBlocksFinalization(RUN, [LIFECYCLE, CANONICAL_AUDIT], RECEIPT, "host");
    HostCheckpointTakesKey(RUN, RunCompleted, "host");
    var blocked := WithStopKeyTaken(RUN, RunCompleted, "host").value;
    forall later | Valid(later) && Extends(later, blocked) && later.projection.status == Active
      ensures MutateFinalize(later, RECEIPT).Err?
    {
      BlockedForEver(blocked, later, RECEIPT);
    }
  }
}

/**
 A RunStopped audit and the invocation lifecycle it closes become durable together: no persisted
 state, whatever crashed in between, shows the audit delivered and its lifecycle open.
 */
module PairAtomicity {
  import opened Wrappers
  import opened RunLog
  import opened RunInvariants
  import opened AttemptHistory
  import opened RunOps
  import opened Disposition
  import opened DispositionFacts
  import opened RunCommands
  import opened CommandFacts
  import opened TerminalProtocol

  predicate IsAudit(a: ActivityId) {
    a.step == RunStoppedAudit || a.step == RecoveryAudit
  }

  /** The lifecycle of the same invocation is completed with the same replay. */
  predicate ClosedTogether(acts: map<ActivityId, Record>, a: ActivityId)
    requires a in acts
  {
    && acts[a].definition.input.AuditInput?
    && var replay := acts[a].definition.input.replay;
    && LifecycleOf(replay.invocationId) in acts
    && CompletedOutput(acts[LifecycleOf(replay.invocationId)]) == Some(AuditClosed(replay))
  }

  predicate Paired(p: Projection) {
    forall a :: a in p.activities && IsAudit(a) && CompletedOutput(p.activities[a]).Some?
                ==> ClosedTogether(p.activities, a)
  }

  // ---------------------------------------------------------------- a closed lifecycle names its audit

  function ClosingReplay(output: Value): Option<Replay> {
    match output
    case AuditClosed(replay) => if replay.kind == Direct then None else Some(replay)
    case ReplayAuthorized(replay) => Some(replay)
    case _ => None
  }

  predicate Linked(acts: map<ActivityId, Record>, r: Record) {
    CompletedOutput(r).Some? && ClosingReplay(CompletedOutput(r).value).Some? ==>
      var replay := ClosingReplay(CompletedOutput(r).value).value;
      LinkedAudit(acts, replay, AuditOf(replay))
  }

  predicate LinksOk(p: Projection) {
    forall a :: a in p.activities && a.step == Lifecycle ==> Linked(p.activities, p.activities[a])
  }

  lemma LifecycleOutput(runId: string, a: ActivityId, r: Record)
    requires RecordOk(runId, a, r) && a.step == Lifecycle
    ensures CompletedOutput(r) ==
            if r.attempts != [] && r.attempts[0].status == Completed then r.attempts[0].output else None
  {
    assert CompletedAmong(r.attempts[..0]) == None;
  }

  /** A completed lifecycle keeps its outcome for ever. */
  lemma LifecycleOutputIsStable(runId: string, p: Projection, q: Projection, a: ActivityId)
    requires RecordsOk(runId, p) && RecordsOk(runId, q) && Progresses(p, q)
    requires a in p.activities && a.step == Lifecycle && CompletedOutput(p.activities[a]).Some?
    ensures a in q.activities && CompletedOutput(q.activities[a]) == CompletedOutput(p.activities[a])
  {
    assert RecordOk(runId, a, p.activities[a]) && RecordOk(runId, a, q.activities[a]);
    LifecycleOutput(runId, a, p.activities[a]);
    LifecycleOutput(runId, a, q.activities[a]);
    assert p.activities[a].attempts[0].status == Completed;
  }

  lemma LinkIsStable(p: Projection, q: Projection, replay: Replay)
    requires Progresses(p, q) && LinkedAudit(p.activities, replay, AuditOf(replay))
    ensures LinkedAudit(q.activities, replay, AuditOf(replay))
  {
  }

  /** Only a completion or reconciliation of `a` itself completes one of its attempts. */
  lemma NoOtherCompletion(runId: string, p: Projection, kind: EventKind, sequence: nat, a: ActivityId, i: nat)
    requires Apply(runId, p, kind, sequence).Ok? && a in p.activities
    requires !(kind.AttemptCompleted? && kind.completed == a) && !(kind.ActivityReconciled? && kind.reconciled == a)
    requires var q := Apply(runId, p, kind, sequence).value;
             a in q.activities && i < |q.activities[a].attempts| && q.activities[a].attempts[i].status == Completed
    ensures i < |p.activities[a].attempts| && p.activities[a].attempts[i].status == Completed
  {
    if !ActivityKind(kind) {
      ControlKeepsActivities(p, kind);
    }
  }

  lemma CompletionIsLinked(runId: string, p: Projection, a: ActivityId, r: Record, output: Value)
    requires RecordOk(runId, a, r) && a.step == Lifecycle && ClosingReplay(output).Some?
    requires || CompletionOk(runId, p.activities, a, r, output)
             || ReconciliationOk(runId, p.activities, a, r, ResolvedCompleted(output))
    ensures LinkedAudit(p.activities, ClosingReplay(output).value, AuditOf(ClosingReplay(output).value))
  {
  }

  /** The outcome just recorded for a lifecycle names an audit that exists. */
  lemma NewClosureIsLinked(runId: string, p: Projection, kind: EventKind, sequence: nat, a: ActivityId)
    requires RecordsOk(runId, p) && a in p.activities && a.step == Lifecycle && CompletedOutput(p.activities[a]).None?
    requires Apply(runId, p, kind, sequence).Ok?
    requires var q := Apply(runId, p, kind, sequence).value;
             a in q.activities && RecordOk(runId, a, q.activities[a])
             && CompletedOutput(q.activities[a]).Some? && ClosingReplay(CompletedOutput(q.activities[a]).value).Some?
    ensures var q := Apply(runId, p, kind, sequence).value;
            var replay := ClosingReplay(CompletedOutput(q.activities[a]).value).value;
            LinkedAudit(p.activities, replay, AuditOf(replay))
  {
    var r, r' := p.activities[a], Apply(runId, p, kind, sequence).value.activities[a];
    assert RecordOk(runId, a, r);
    LifecycleOutput(runId, a, r);
    LifecycleOutput(runId, a, r');
    if kind.AttemptCompleted? && kind.completed == a {
      CompletionIsLinked(runId, p, a, r, kind.output);
    } else if kind.ActivityReconciled? && kind.reconciled == a {
      CompletionIsLinked(runId, p, a, r, kind.resolution.output);
    } else {
      NoOtherCompletion(runId, p, kind, sequence, a, 0);
    }
  }

  lemma ApplyKeepsLinks(runId: string, p: Projection, kind: EventKind, sequence: nat)
    requires RecordsOk(runId, p) && LinksOk(p) && Apply(runId, p, kind, sequence).Ok?
    ensures LinksOk(Apply(runId, p, kind, sequence).value)
  {
    hide Apply;
    var q := Apply(runId, p, kind, sequence).value;
    ApplyKeepsRecords(runId, p, kind, sequence);
    ApplyProgresses(runId, p, kind, sequence);
    forall a | a in q.activities && a.step == Lifecycle
      ensures Linked(q.activities, q.activities[a])
    {
      if a !in p.activities {
        NewRecordIsEmpty(runId, p, kind, sequence, a);
      } else if CompletedOutput(p.activities[a]).Some? {
        LifecycleOutputIsStable(runId, p, q, a);
        assert Linked(p.activities, p.activities[a]);
        var closing := ClosingReplay(CompletedOutput(p.activities[a]).value);
        if closing.Some? {
          LinkIsStable(p, q, closing.value);
        }
      } else if CompletedOutput(q.activities[a]).Some? {
        var closing := ClosingReplay(CompletedOutput(q.activities[a]).value);
        if closing.Some? {
          assert RecordOk(runId, a, q.activities[a]);
          NewClosureIsLinked(runId, p, kind, sequence, a);
          LinkIsStable(p, q, closing.value);
        }
      }
    }
  }

  lemma NewRecordIsEmpty(runId: string, p: Projection, kind: EventKind, sequence: nat, a: ActivityId)
    requires Apply(runId, p, kind, sequence).Ok?
    requires a in Apply(runId, p, kind, sequence).value.activities && a !in p.activities
    ensures Apply(runId, p, kind, sequence).value.activities[a].attempts == []
  {
  }

  lemma {:induction false} ValidLinks(s: RunState)
    requires Valid(s)
    ensures LinksOk(s.projection)
    decreases |s.events|
  {
    hide Apply;
    if |s.events| > 1 {
      ValidLinks(Prior(s));
      ValidRecords(Prior(s));
      ApplyKeepsLinks(s.runId, Prior(s).projection, s.events[|s.events| - 1].kind, |s.events|);
    }
  }

  // ---------------------------------------------------------------- events that cannot complete an audit

  predicate CompletesAudit(kind: EventKind) {
    || (kind.ActivityReconciled? && IsAudit(kind.reconciled))
    || (kind.AttemptCompleted? && IsAudit(kind.completed))
  }

  lemma AuditStaysIncomplete(runId: string, p: Projection, kind: EventKind, sequence: nat, a: ActivityId)
    requires RecordsOk(runId, p) && Apply(runId, p, kind, sequence).Ok? && !CompletesAudit(kind)
    requires IsAudit(a) && a in Apply(runId, p, kind, sequence).value.activities
    requires CompletedOutput(Apply(runId, p, kind, sequence).value.activities[a]).Some?
    ensures a in p.activities && CompletedOutput(p.activities[a]).Some?
  {
    hide Apply;
    var q := Apply(runId, p, kind, sequence).value;
    ApplyKeepsRecords(runId, p, kind, sequence);
    if a !in p.activities {
      NewRecordIsEmpty(runId, p, kind, sequence, a);
    } else {
      assert RecordOk(runId, a, p.activities[a]) && RecordOk(runId, a, q.activities[a]);
      var d := p.activities[a].definition;
      assert q.activities[a].definition == d by { ApplyProgresses(runId, p, kind, sequence); }
      CompletedExactlyWhenSomeAttemptIs(runId, a, d, p.activities[a].attempts);
      CompletedExactlyWhenSomeAttemptIs(runId, a, d, q.activities[a].attempts);
      var i :| 0 <= i < |q.activities[a].attempts| && q.activities[a].attempts[i].status == Completed;
      NoOtherCompletion(runId, p, kind, sequence, a, i);
    }
  }

  lemma ClosureIsStable(runId: string, p: Projection, q: Projection, a: ActivityId)
    requires RecordsOk(runId, p) && RecordsOk(runId, q) && Progresses(p, q)
    requires a in p.activities && ClosedTogether(p.activities, a)
    ensures a in q.activities && ClosedTogether(q.activities, a)
  {
    LifecycleOutputIsStable(runId, p, q, LifecycleOf(p.activities[a].definition.input.replay.invocationId));
  }

  lemma ApplyKeepsPaired(runId: string, p: Projection, kind: EventKind, sequence: nat)
    requires RecordsOk(runId, p) && Paired(p) && Apply(runId, p, kind, sequence).Ok? && !CompletesAudit(kind)
    ensures Paired(Apply(runId, p, kind, sequence).value)
  {
    hide Apply;
    var q := Apply(runId, p, kind, sequence).value;
    ApplyKeepsRecords(runId, p, kind, sequence);
    ApplyProgresses(runId, p, kind, sequence);
    forall a | a in q.activities && IsAudit(a) && CompletedOutput(q.activities[a]).Some?
      ensures ClosedTogether(q.activities, a)
    {
      AuditStaysIncomplete(runId, p, kind, sequence, a);
      ClosureIsStable(runId, p, q, a);
    }
  }

  lemma {:induction false} QuietContinuationKeepsPaired(s: RunState, t: RunState)
    requires Valid(s) && Paired(s.projection)
    requires Continues(s, t, kind => !CompletesAudit(kind))
    ensures Paired(t.projection)
    decreases |t.events|
  {
    hide Apply;
    if |t.events| == |s.events| {
      EqualLengthExtensionIsEqual(t, s);
    } else {
      ValidSequences(s);
      var prior := Prior(t);
      assert forall i :: 0 <= i < |prior.events| ==> prior.events[i] == t.events[i];
      QuietContinuationKeepsPaired(s, prior);
      ValidRecords(prior);
      ApplyKeepsPaired(t.runId, prior.projection, t.events[|t.events| - 1].kind, |t.events|);
    }
  }

  // ---------------------------------------------------------------- the paired commit

  /** What committing a completion leaves behind, whether it was appended or absorbed. */
  lemma CompletionEffect(s: RunState, a: ActivityId, n: nat, output: Value)
    requires Valid(s) && CompleteActivity(s, a, n, output).Ok?
    ensures var t := CompleteActivity(s, a, n, output).value;
            && Valid(t) && OnlyTouches(s, t, a) && Progresses(s.projection, t.projection)
            && HasAttempt(t.projection, a, n)
            && t.projection.activities[a].attempts[n - 1].status == Completed
            && t.projection.activities[a].attempts[n - 1].output == Some(output)
  {
    hide Valid, CompletionOk;
    if CompleteActivity(s, a, n, output).value == s {
      hide Apply;
      AbsorbedCompletion(s, a, n, output);
    } else {
      AppendedCompletion(s, a, n, output);
    }
  }

  lemma AbsorbedCompletion(s: RunState, a: ActivityId, n: nat, output: Value)
    requires Valid(s) && CompleteActivity(s, a, n, output) == Ok(s)
    ensures HasAttempt(s.projection, a, n)
    ensures s.projection.activities[a].attempts[n - 1].status == Completed
    ensures s.projection.activities[a].attempts[n - 1].output == Some(output)
  {
    hide Valid, Apply;
    var id, kind := AttemptId(a, n, CompletePhase), AttemptCompleted(a, n, output);
    if IdUsedFor(s.events, id, kind) {
      ValidLogAgrees(s);
      var i :| 0 <= i < |s.events| && s.events[i].id == id && s.events[i].kind == kind;
      assert EventAgrees(s.events[i], s.projection);
    }
  }

  lemma AppendedCompletion(s: RunState, a: ActivityId, n: nat, output: Value)
    requires Valid(s) && CompleteActivity(s, a, n, output).Ok? && CompleteActivity(s, a, n, output).value != s
    ensures var t := CompleteActivity(s, a, n, output).value;
            && Valid(t) && OnlyTouches(s, t, a) && Progresses(s.projection, t.projection)
            && HasAttempt(t.projection, a, n)
            && t.projection.activities[a].attempts[n - 1].status == Completed
            && t.projection.activities[a].attempts[n - 1].output == Some(output)
  {
    hide Valid, CompletionOk, Progresses;
    var id, kind := AttemptId(a, n, CompletePhase), AttemptCompleted(a, n, output);
    AppendValid(s, id, kind);
    ApplyProgresses(s.runId, s.projection, kind, |s.events| + 1);
  }

  /** The receipt of one kind of audit is never accepted as the output of another. */
  lemma CompletedAuditIsNamed(s: RunState, kind: AuditKind, audit: ActivityId, n: nat, lifecycle: ActivityId, m: nat, replay: Replay)
    requires Valid(s) && MutateCompleteLinked(s, kind, audit, n, lifecycle, m, replay).Ok? && kind != Direct
    requires lifecycle.step == Lifecycle && IsAudit(audit)
    requires audit.step == RecoveryAudit ==> audit.key == replay.invocationId
    ensures audit == AuditOf(replay)
  {
    var u := CompleteActivity(s, audit, n, ExpectedOutput(replay)).value;
    CompletionEffect(s, audit, n, ExpectedOutput(replay));
    ValidRecords(u);
    assert RecordOk(u.runId, audit, u.projection.activities[audit]);
    assert AttemptOk(u.runId, audit, u.projection.activities[audit].definition, u.projection.activities[audit].attempts[n - 1]);
  }

  /** A lifecycle closed by an audit's replay closes together with that audit. */
  lemma ClosedLifecycleHasItsAudit(t: RunState, lifecycle: ActivityId, m: nat, replay: Replay)
    requires Valid(t) && lifecycle.step == Lifecycle && replay.kind != Direct
    requires HasAttempt(t.projection, lifecycle, m)
    requires t.projection.activities[lifecycle].attempts[m - 1].status == Completed
    requires t.projection.activities[lifecycle].attempts[m - 1].output == Some(AuditClosed(replay))
    ensures AuditOf(replay) in t.projection.activities && ClosedTogether(t.projection.activities, AuditOf(replay))
  {
    ValidRecords(t);
    ValidLinks(t);
    var r := t.projection.activities[lifecycle];
    assert RecordOk(t.runId, lifecycle, r) && Linked(t.projection.activities, r);
    LifecycleOutput(t.runId, lifecycle, r);
    assert AttemptOk(t.runId, lifecycle, r.definition, r.attempts[0]);
  }

  lemma PairClosesTogether(s: RunState, kind: AuditKind, audit: ActivityId, n: nat, lifecycle: ActivityId, m: nat, replay: Replay)
    requires Valid(s) && MutateCompleteLinked(s, kind, audit, n, lifecycle, m, replay).Ok? && kind != Direct
    requires lifecycle.step == Lifecycle
    ensures var t := MutateCompleteLinked(s, kind, audit, n, lifecycle, m, replay).value.0;
            AuditOf(replay) in t.projection.activities && ClosedTogether(t.projection.activities, AuditOf(replay))
  {
    hide CompleteActivity, ClosedTogether, AuditOf;
    var u := CompleteActivity(s, audit, n, ExpectedOutput(replay)).value;
    CompletionEffect(s, audit, n, ExpectedOutput(replay));
    CompletionEffect(u, lifecycle, m, AuditClosed(replay));
    ClosedLifecycleHasItsAudit(CompleteActivity(u, lifecycle, m, AuditClosed(replay)).value, lifecycle, m, replay);
  }

  lemma LinkedCompletionKeepsPaired(s: RunState, kind: AuditKind, audit: ActivityId, n: nat, lifecycle: ActivityId, m: nat, replay: Replay)
    requires Valid(s) && Paired(s.projection) && kind != Direct && lifecycle.step == Lifecycle
    requires audit.step == RecoveryAudit ==> audit.key == replay.invocationId
    requires MutateCompleteLinked(s, kind, audit, n, lifecycle, m, replay).Ok?
    ensures Paired(MutateCompleteLinked(s, kind, audit, n, lifecycle, m, replay).value.0.projection)
  {
    hide CompleteActivity, ClosedTogether, Valid, RecordOk, CompletedOutput, EnvelopeOk;
    var u := CompleteActivity(s, audit, n, ExpectedOutput(replay)).value;
    CompletionEffect(s, audit, n, ExpectedOutput(replay));
    CompletionEffect(u, lifecycle, m, AuditClosed(replay));
    var t := CompleteActivity(u, lifecycle, m, AuditClosed(replay)).value;
    ValidRecords(s);
    ValidRecords(u);
    ValidRecords(t);
    forall b | b in t.projection.activities && IsAudit(b) && CompletedOutput(t.projection.activities[b]).Some?
      ensures ClosedTogether(t.projection.activities, b)
    {
      if b == audit {
        CompletedAuditIsNamed(s, kind, audit, n, lifecycle, m, replay);
        PairClosesTogether(s, kind, audit, n, lifecycle, m, replay);
      } else {
        ClosureIsStable(s.runId, s.projection, u.projection, b);
        ClosureIsStable(s.runId, u.projection, t.projection, b);
      }
    }
  }

  // ---------------------------------------------------------------- whole histories

  /**
   The audit protocol as its callers use it: an audit is completed only through the paired commit,
   which names a lifecycle (and, for recovery, its own audit), and no operator reconciles an audit.
   */
  predicate PairedUse(c: Command) {
    match c
    case CommitCompletion(a, _, _) => !IsAudit(a)
    case CloseUnstarted(a, _) => !IsAudit(a)
    case CloseWithReplay(a, _, _) => !IsAudit(a)
    case CompleteRunStopped(audit, _, lifecycle, _, _) => audit.step != RecoveryAudit && lifecycle.step == Lifecycle
    case CompleteRecovery(audit, _, lifecycle, _, replay) =>
      audit == RecoveryOf(replay.invocationId) && lifecycle.step == Lifecycle
    case Reconcile(_, a, _) => !IsAudit(a)
    case _ => true
  }

  lemma CommandKeepsPaired(s: RunState, c: Command)
    requires Valid(s) && Paired(s.projection) && PairedUse(c) && Mutate(s, c).Ok?
    ensures Paired(Mutate(s, c).value.0.projection)
  {
    match c
    case CompleteRunStopped(audit, n, lifecycle, m, replay) =>
      LinkedCompletionKeepsPaired(s, Canonical, audit, n, lifecycle, m, replay);
    case CompleteRecovery(audit, n, lifecycle, m, replay) =>
      LinkedCompletionKeepsPaired(s, Recovery, audit, n, lifecycle, m, replay);
    case _ =>
      CommandContinues(s, c);
      QuietCommandKeepsPaired(s, Mutate(s, c).value.0, c);
  }

  lemma QuietCommandKeepsPaired(s: RunState, t: RunState, c: Command)
    requires Valid(s) && Paired(s.projection) && PairedUse(c) && !c.CompleteRunStopped? && !c.CompleteRecovery?
    requires Continues(s, t, MayFor(c))
    ensures Paired(t.projection)
  {
    assert forall kind :: Allowed(c, kind) ==> !CompletesAudit(kind);
    ContinuesWeaken(s, t, MayFor(c), kind => !CompletesAudit(kind));
    QuietContinuationKeepsPaired(s, t);
  }

  /**
   Pair atomicity: in every state a driver ever persists, an audit that is completed has its
   invocation's lifecycle completed with the same replay.
   */
  lemma {:induction false} AuditAndLifecycleCompleteTogether(s: RunState, commands: seq<Command>)
    requires Valid(s) && |s.events| == 1 && Commit(s, commands).Ok?
    requires forall i :: 0 <= i < |commands| ==> PairedUse(commands[i])
    ensures Paired(Commit(s, commands).value.projection)
    decreases |commands|
  {
    hide Mutate;
    FirstEventStarts(s);
    if commands != [] {
      var earlier, c := commands[..|commands| - 1], commands[|commands| - 1];
      AuditAndLifecycleCompleteTogether(s, earlier);
      CommitValid(s, earlier);
      CommandKeepsPaired(Commit(s, earlier).value, c);
    }
  }
}

/**
 Classifying a run before an invocation touches it (durable_runtime.rs, invocation_disposition).

 One transition sweeps every open reserved audit activity and every open reconcile-required activity
 into explicit reconciliation, and only then decides what the invocation may do.
 */
module Disposition {
  import opened Wrappers
  import opened RunLog
  import opened RunOps

  datatype DriverError =
    | StateError(error: Error)
    | InvalidCompletionPayload
    | InvocationAlreadyActive
    | TerminalRecoveryRequired
    | TerminalAuditBlocked

  datatype Verdict =
    | ExecuteRun
    | FinalizeTerminal(receipt: Receipt)
    | RetryTerminalAudit(replay: Replay)
    | AwaitingResume(pauseReason: Option<Note>)
    | ReconcileRun(reason: Note)
    | AlreadyTerminal(status: RunStatus, stopReason: Option<Note>)

  function Lift<T>(r: Result<T, Error>): Result<T, DriverError> {
    match r
    case Ok(value) => Ok(value)
    case Err(error) => Err(StateError(error))
  }

  // ---------------------------------------------------------------- replay envelopes

  predicate EnvelopeOk(r: Replay, kind: AuditKind, runId: string, invocationId: Option<string>) {
    && r.schemaVersion == 1
    && r.binding.schemaVersion == 1
    && r.kind == kind
    && r.auditRunId == runId
    && ValidIdentifier(r.auditRunId)
    && ValidIdentifier(r.invocationId)
    && r.runStoppedSequence != 0
    && r.auditReason != ""
    && (invocationId.Some? ==> r.invocationId == invocationId.value)
    && (kind != Recovery ==> r.auditTurns == r.receipt.turns && r.auditReason == r.receipt.reason)
  }

  function ReplayFromRecord(a: ActivityId, r: Record, kind: AuditKind, runId: string): Result<Replay, DriverError> {
    if !r.definition.input.AuditInput? then Err(InvalidCompletionPayload)
    else
      var replay := r.definition.input.replay;
      if !EnvelopeOk(replay, kind, runId, if kind == Recovery then Some(a.key) else None) then
        Err(InvalidCompletionPayload)
      else if kind == Direct then Err(InvalidCompletionPayload)
      else if r.definition.input.expectedOutput != Sha(ExpectedOutput(replay)) then Err(InvalidCompletionPayload)
      else Ok(replay)
  }

  function ReplayFromLifecycle(a: ActivityId, r: Record, runId: string): Result<Option<Replay>, DriverError> {
    match CompletedOutput(r)
    case Some(AuditClosed(replay)) =>
      if EnvelopeOk(replay, replay.kind, runId, Some(a.key)) then Ok(Some(replay)) else Err(InvalidCompletionPayload)
    case Some(ReplayAuthorized(replay)) =>
      if EnvelopeOk(replay, replay.kind, runId, Some(a.key)) && replay.kind != Direct then Ok(Some(replay))
      else Err(InvalidCompletionPayload)
    case _ => Ok(None)
  }

  function ValidatedReceipt(r: Record): Result<Option<Value>, DriverError> {
    match CompletedOutput(r)
    case None => Ok(None)
    case Some(output) =>
      if r.definition.input.AuditInput? && Sha(output) == r.definition.input.expectedOutput then Ok(Some(output))
      else Err(InvalidCompletionPayload)
  }

  // ---------------------------------------------------------------- the sweep

  datatype Phase = Lifecycles | Recoveries | CanonicalPhase | OrdinaryPhase

  datatype Sweep = Sweep(state: RunState, ambiguous: bool, reason: Note)

  predicate InPhase(phase: Phase, a: ActivityId) {
    match phase
    case Lifecycles => a.step == Lifecycle
    case Recoveries => a.step == RecoveryAudit
    case CanonicalPhase => a == CANONICAL_AUDIT
    case OrdinaryPhase => a.step.Ordinary?
  }

  function Quarantine(acc: Sweep, a: ActivityId, why: Note): Result<Sweep, DriverError> {
    var t :- Lift(QuarantineUnstarted(acc.state, a, why));
    Ok(Sweep(t, true, why))
  }

  function Interrupt(acc: Sweep, a: ActivityId, n: nat, why: Note): Result<Sweep, DriverError> {
    var t :- Lift(FailActivity(acc.state, a, n, why, false, true));
    Ok(Sweep(t.0, true, why))
  }

  function SweepLifecycle(r: Record, active: Option<string>, acc: Sweep, a: ActivityId): Result<Sweep, DriverError> {
    if r.attempts == [] then
      Quarantine(acc, a, OrphanLifecycle)
    else
      var replay :- ReplayFromLifecycle(a, r, acc.state.runId);
      var n := |r.attempts|;
      var last := r.attempts[n - 1];
      if replay.Some? then Ok(acc)
      else if last.status == Running && active != Some(a.key) then
        Interrupt(acc, a, n, OpenLifecycle)
      else if last.status == NeedsReconciliation then Ok(acc.(ambiguous := true))
      else if last.status == Failed && last.retryable && !last.effectAmbiguous then
        Ok(acc.(ambiguous := true, reason := UnsupportedLifecycleOutcome))
      else if last.status == Cancelled then
        Ok(acc.(ambiguous := true, reason := UnsupportedLifecycleOutcome))
      else Ok(acc)
  }

  function SweepAudit(r: Record, acc: Sweep, a: ActivityId): Result<Sweep, DriverError> {
    if r.attempts == [] then
      Quarantine(acc, a, OrphanRunStopped)
    else if LatestIs(r, Running) then
      Interrupt(acc, a, |r.attempts|, OpenRunStopped)
    else if LatestIs(r, NeedsReconciliation) then Ok(acc.(ambiguous := true))
    else Ok(acc)
  }

  function SweepOrdinary(r: Record, acc: Sweep, a: ActivityId): Result<Sweep, DriverError> {
    if r.definition.sideEffects == ReconcileRequired && LatestIs(r, Running) then
      if Terminal(acc.state.projection.status) then Err(StateError(InvalidActivityTransition))
      else Interrupt(acc, a, |r.attempts|, OpenUnsafeActivity)
    else Ok(acc)
  }

  /** Visit one activity, reading the snapshot taken before the sweep and writing the candidate. */
  function SweepOne(phase: Phase, snapshot: map<ActivityId, Record>, active: Option<string>, acc: Sweep, a: ActivityId)
    : Result<Sweep, DriverError>
  {
    if a !in snapshot || !InPhase(phase, a) then Ok(acc)
    else if phase != OrdinaryPhase && !IsReserved(a, snapshot[a].definition) then Ok(acc)
    else
      match phase
      case Lifecycles => SweepLifecycle(snapshot[a], active, acc, a)
      case Recoveries => SweepAudit(snapshot[a], acc, a)
      case CanonicalPhase => SweepAudit(snapshot[a], acc, a)
      case OrdinaryPhase => SweepOrdinary(snapshot[a], acc, a)
  }

  function SweepAll(phase: Phase, snapshot: map<ActivityId, Record>, active: Option<string>, acc: Sweep, order: seq<ActivityId>)
    : Result<Sweep, DriverError>
    decreases |order|
  {
    if order == [] then Ok(acc)
    else
      var next :- SweepOne(phase, snapshot, active, acc, order[0]);
      SweepAll(phase, snapshot, active, next, order[1..])
  }

  function FirstSweep(s: RunState): Sweep {
    Sweep(s, s.projection.status == ReconciliationPending || HasPendingReconciliation(s.projection),
          if s.projection.pauseReason.Some? then s.projection.pauseReason.value
          else UnspecifiedReconciliation)
  }

  function SweepRun(s: RunState, active: Option<string>, order: seq<ActivityId>): Result<Sweep, DriverError> {
    var snapshot := s.projection.activities;
    var a :- SweepAll(Lifecycles, snapshot, active, FirstSweep(s), order);
    var b :- SweepAll(Recoveries, snapshot, active, a, order);
    var c :- SweepAll(CanonicalPhase, snapshot, active, b, order);
    SweepAll(OrdinaryPhase, snapshot, active, c, order)
  }

  // ---------------------------------------------------------------- the verdict

  /** The first recovery audit without a committed receipt, in iteration order. */
  function OpenRecovery(acts: map<ActivityId, Record>, order: seq<ActivityId>): Option<ActivityId> {
    if order == [] then None
    else if order[0] in acts && order[0].step == RecoveryAudit && IsReserved(order[0], acts[order[0]].definition)
            && CompletedOutput(acts[order[0]]).None? then Some(order[0])
    else OpenRecovery(acts, order[1..])
  }

  function RetryOrReconcile(s: RunState, a: ActivityId, kind: AuditKind): Result<Verdict, DriverError>
    requires a in s.projection.activities
  {
    if Terminal(s.projection.status) then Ok(ReconcileRun(UndeliveredRunStopped))
    else if RetryAuthorized(s.projection.activities[a]) then
      var replay :- ReplayFromRecord(a, s.projection.activities[a], kind, s.runId);
      Ok(RetryTerminalAudit(replay))
    else Ok(ReconcileRun(UndeliveredRunStopped))
  }

  function VerdictFor(s: RunState, ambiguous: bool, reason: Note, order: seq<ActivityId>): Result<Verdict, DriverError> {
    var acts := s.projection.activities;
    var open := OpenRecovery(acts, order);
    if ambiguous then Ok(ReconcileRun(reason))
    else if s.projection.status == Paused then Ok(AwaitingResume(s.projection.pauseReason))
    else if open.Some? && open.value in acts then RetryOrReconcile(s, open.value, Recovery)
    else if CANONICAL_AUDIT in acts && IsReserved(CANONICAL_AUDIT, acts[CANONICAL_AUDIT].definition) then
      var output :- ValidatedReceipt(acts[CANONICAL_AUDIT]);
      if output.Some? then
        if output.value.ReceiptValue? then Ok(FinalizeTerminal(output.value.receipt)) else Err(InvalidCompletionPayload)
      else RetryOrReconcile(s, CANONICAL_AUDIT, Canonical)
    else if Terminal(s.projection.status) then Ok(AlreadyTerminal(s.projection.status, s.projection.pauseReason))
    else Ok(ExecuteRun)
  }

  function Dispose(s: RunState, active: Option<string>, order: seq<ActivityId>): Result<(RunState, Verdict), DriverError> {
    var swept :- SweepRun(s, active, order);
    var verdict :- VerdictFor(swept.state, swept.ambiguous, swept.reason, order);
    Ok((swept.state, verdict))
  }

  /** `order` lists every activity exactly once, in whatever order the store iterates them. */
  predicate Enumerates(order: seq<ActivityId>, acts: map<ActivityId, Record>) {
    && (forall a :: a in acts ==> a in order)
    && (forall a :: a in order ==> a in acts)
    && (forall i, j :: 0 <= i < j < |order| ==> order[i] != order[j])
  }

  // ---------------------------------------------------------------- the loops

  method SweepPhase(phase: Phase, snapshot: map<ActivityId, Record>, active: Option<string>, start: Sweep, order: seq<ActivityId>)
    returns (r: Result<Sweep, DriverError>)
    ensures r == SweepAll(phase, snapshot, active, start, order)
  {
    var candidate := start;
    var i := 0;
    while i < |order|
      invariant 0 <= i <= |order|
      invariant SweepAll(phase, snapshot, active, candidate, order[i..]) == SweepAll(phase, snapshot, active, start, order)
    {
      assert order[i..][1..] == order[i + 1..];
      var step := SweepOne(phase, snapshot, active, candidate, order[i]);
      if step.Err? {
        return Err(step.error);
      }
      candidate := step.value;
      i := i + 1;
    }
    return Ok(candidate);
  }

  /** The whole classification, as the driver runs it on its candidate state. */
  method Classify(s: RunState, active: Option<string>, order: seq<ActivityId>)
    returns (r: Result<(RunState, Verdict), DriverError>)
    ensures r == Dispose(s, active, order)
  {
    var snapshot := s.projection.activities;
    var a := SweepPhase(Lifecycles, snapshot, active, FirstSweep(s), order);
    if a.Err? { return Err(a.error); }
    var b := SweepPhase(Recoveries, snapshot, active, a.value, order);
    if b.Err? { return Err(b.error); }
    var c := SweepPhase(CanonicalPhase, snapshot, active, b.value, order);
    if c.Err? { return Err(c.error); }
    var d := SweepPhase(OrdinaryPhase, snapshot, active, c.value, order);
    if d.Err? { return Err(d.error); }
    var verdict := VerdictFor(d.value.state, d.value.ambiguous, d.value.reason, order);
    if verdict.Err? { return Err(verdict.error); }
    return Ok((d.value.state, verdict.value));
  }
}

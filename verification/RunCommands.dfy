/**
 The mutations the durable run driver applies to its candidate state (durable_runtime.rs): one
 command per driver entry point, plus the events a host commits itself between driver calls, which
 are anything but events of the reserved audit activities.
 */
module RunCommands {
  import opened Wrappers
  import opened RunLog
  import opened RunOps
  import opened Disposition

  datatype Command =
    | BeginActivity(activity: ActivityId, definition: Definition)
    | CommitCompletion(activity: ActivityId, attempt: nat, output: Value)
    | CommitFailure(activity: ActivityId, attempt: nat, error: Note, retryable: bool, effectAmbiguous: bool)
    | BeginLifecycle(invocationId: string)
    | CloseUnstarted(activity: ActivityId, attempt: nat)
    | CloseWithReplay(activity: ActivityId, attempt: nat, replay: Replay)
    | CloseFromCanonical(activity: ActivityId, attempt: nat)
    | BeginRunStopped(replay: Replay)
    | CompleteRunStopped(audit: ActivityId, auditAttempt: nat, lifecycle: ActivityId, lifecycleAttempt: nat, replay: Replay)
    | FailLinked(audit: ActivityId, auditAttempt: nat, lifecycle: ActivityId, lifecycleAttempt: nat)
    | BeginRecovery(replay: Replay)
    | CompleteRecovery(audit: ActivityId, auditAttempt: nat, lifecycle: ActivityId, lifecycleAttempt: nat, replay: Replay)
    | BeginRetry(replay: Replay)
    | Finalize(receipt: Receipt)
    | CompleteRun
    | FailRun(failure: Note)
    | CancelRun(reason: Note)
    | ClassifyRun(active: Option<string>, order: seq<ActivityId>)
    | Reconcile(reconciliationId: string, activity: ActivityId, resolution: Resolution)
    | ClaimLease(ownerId: string, leaseId: string, claimedAt: nat, expiresAt: nat)
    | RenewLease(ownerId: string, leaseId: string, renewedAt: nat, expiresAt: nat)
    | ReleaseLease(ownerId: string, leaseId: string, releasedAt: nat)
    | HostEvent(id: EventId, kind: EventKind)

  datatype Outcome =
    | Done
    | Decided(decision: Decision)
    | Flag(flag: bool)
    | Judged(verdict: Verdict)
    | RetryStarted(activity: ActivityId, attempt: nat)

  type Mutated = Result<(RunState, Outcome), DriverError>

  /** The outcome of a mutation whose caller learns nothing but that it succeeded. */
  function WithoutReply(r: Result<RunState, Error>): Mutated {
    var t :- Lift(r);
    Ok((t, Done))
  }

  /** The outcome of a mutation whose caller is told what to do next. */
  function WithDecision(r: RunOps.Decided): Mutated {
    var t :- Lift(r);
    Ok((t.0, Outcome.Decided(t.1)))
  }

  predicate TerminalAuditExists(p: Projection) {
    CANONICAL_AUDIT in p.activities || LEGACY_AUDIT in p.activities
  }

  /** Some activity outside `except` has its latest attempt running. */
  predicate RunningOutside(p: Projection, except: set<Step>) {
    exists a :: a in p.activities && a.step !in except && LatestIs(p.activities[a], Running)
  }

  function AuditDefinition(replay: Replay): Definition {
    Definition(AuditInput(replay, Sha(ExpectedOutput(replay))), ReconcileRequired, None)
  }

  function LifecycleDefinition(runId: string, invocationId: string): Definition {
    Definition(LifecycleInput(runId, invocationId), ReconcileRequired, None)
  }

  // ---------------------------------------------------------------- ordinary activities

  function MutateBegin(s: RunState, a: ActivityId, d: Definition): Mutated {
    var terminalAudit := a == CANONICAL_AUDIT || a == LEGACY_AUDIT;
    if TerminalAuditExists(s.projection) then Err(TerminalRecoveryRequired)
    else if terminalAudit && RunningOutside(s.projection, {RunStoppedAudit, LegacyRunStoppedAudit}) then
      Err(TerminalAuditBlocked)
    else WithDecision(PrepareActivity(s, a, d))
  }

  // ---------------------------------------------------------------- the invocation lifecycle fence

  predicate LifecycleOpen(p: Projection) {
    exists a :: a in p.activities && a.step == Lifecycle && LatestIs(p.activities[a], Running)
  }

  function MutateBeginLifecycle(s: RunState, invocationId: string): Mutated {
    if LifecycleOpen(s.projection) then Err(InvocationAlreadyActive)
    else if TerminalAuditExists(s.projection) then Err(TerminalRecoveryRequired)
    else WithDecision(PrepareActivity(s, LifecycleOf(invocationId), LifecycleDefinition(s.runId, invocationId)))
  }

  function MutateCloseUnstarted(s: RunState, a: ActivityId, n: nat): Mutated {
    if a !in s.projection.activities then Err(StateError(ActivityNotFound))
    else WithoutReply(CompleteActivity(s, a, n, NotStarted(s.runId, a.key)))
  }

  function MutateCloseWithReplay(s: RunState, a: ActivityId, n: nat, replay: Replay): Mutated {
    if a !in s.projection.activities then Err(StateError(ActivityNotFound))
    else if !EnvelopeOk(replay, replay.kind, s.runId, Some(a.key)) then Err(InvalidCompletionPayload)
    else WithoutReply(CompleteActivity(s, a, n, AuditClosed(replay)))
  }

  /** Close a lifecycle only when the committed canonical receipt is its exact typed replay. */
  function MutateCloseFromCanonical(s: RunState, a: ActivityId, n: nat): Mutated {
    var acts := s.projection.activities;
    if a !in acts then Err(StateError(ActivityNotFound))
    else if a.step != Lifecycle || !IsReserved(a, acts[a].definition) then Err(InvalidCompletionPayload)
    else if CANONICAL_AUDIT !in acts || CompletedOutput(acts[CANONICAL_AUDIT]).None? then Ok((s, Flag(false)))
    else
      var canonical := acts[CANONICAL_AUDIT];
      var replay :- ReplayFromRecord(CANONICAL_AUDIT, canonical, Canonical, s.runId);
      var output :- ValidatedReceipt(canonical);
      if output.None? || !output.value.ReceiptValue? then Err(InvalidCompletionPayload)
      else if replay.receipt != output.value.receipt || replay.invocationId != a.key then Ok((s, Flag(false)))
      else
        var closed :- ReplayFromLifecycle(a, acts[a], s.runId);
        if closed.Some? then Ok((s, Flag(closed.value == replay)))
        else if acts[a].attempts == [] then Err(InvalidCompletionPayload)
        else if n != |acts[a].attempts| || !LatestIs(acts[a], Running) then Ok((s, Flag(false)))
        else
          var t :- Lift(CompleteActivity(s, a, n, AuditClosed(replay)));
          Ok((t, Flag(true)))
  }

  // ---------------------------------------------------------------- the terminal audit

  function MutateBeginRunStopped(s: RunState, replay: Replay): Mutated {
    var acts := s.projection.activities;
    var lifecycle := LifecycleOf(replay.invocationId);
    if !EnvelopeOk(replay, Canonical, s.runId, Some(replay.invocationId)) then Err(InvalidCompletionPayload)
    else if !(lifecycle in acts && CompletedOutput(acts[lifecycle]).None? && LatestIs(acts[lifecycle], Running)) then
      Err(StateError(InvalidEvent))
    else if TerminalAuditExists(s.projection) then Err(TerminalRecoveryRequired)
    else if RunningOutside(s.projection, {Lifecycle}) then Err(TerminalAuditBlocked)
    else WithDecision(PrepareActivity(s, CANONICAL_AUDIT, AuditDefinition(replay)))
  }

  /** Commit the audit receipt and the lifecycle closure in one candidate state. */
  function MutateCompleteLinked(
    s: RunState, kind: AuditKind, audit: ActivityId, n: nat, lifecycle: ActivityId, m: nat, replay: Replay): Mutated
  {
    if !EnvelopeOk(replay, kind, s.runId, Some(replay.invocationId)) then Err(InvalidCompletionPayload)
    else
      var t :- Lift(CompleteActivity(s, audit, n, ExpectedOutput(replay)));
      WithoutReply(CompleteActivity(t, lifecycle, m, AuditClosed(replay)))
  }

  function MutateFailLinked(s: RunState, audit: ActivityId, n: nat, lifecycle: ActivityId, m: nat): Mutated {
    var t :- Lift(FailActivity(s, audit, n, UndeliveredRunStopped, false, true));
    var u :- Lift(FailActivity(t.0, lifecycle, m, UndeliveredRunStopped, false, true));
    Ok((u.0, Done))
  }

  function MutateBeginRecovery(s: RunState, replay: Replay): Mutated {
    var acts := s.projection.activities;
    if !EnvelopeOk(replay, Recovery, s.runId, Some(replay.invocationId)) then Err(InvalidCompletionPayload)
    else if CANONICAL_AUDIT !in acts || CompletedOutput(acts[CANONICAL_AUDIT]).None? then Err(StateError(InvalidEvent))
    else
      var output :- ValidatedReceipt(acts[CANONICAL_AUDIT]);
      if output != Some(ReceiptValue(replay.receipt)) then Err(InvalidCompletionPayload)
      else
        var canonical :- ReplayFromRecord(CANONICAL_AUDIT, acts[CANONICAL_AUDIT], Canonical, s.runId);
        if canonical.invocationId == replay.invocationId then Err(InvalidCompletionPayload)
        else WithDecision(PrepareActivity(s, RecoveryOf(replay.invocationId), AuditDefinition(replay)))
  }

  function MutateBeginRetry(s: RunState, replay: Replay): Mutated {
    var acts := s.projection.activities;
    var a := AuditOf(replay);
    if !StableBinding(replay.binding) || replay.kind == Direct then Err(InvalidCompletionPayload)
    else if !EnvelopeOk(replay, replay.kind, s.runId, Some(replay.invocationId)) then Err(InvalidCompletionPayload)
    else if a !in acts then Err(StateError(InvalidEvent))
    else
      var persisted :- ReplayFromRecord(a, acts[a], replay.kind, s.runId);
      if persisted != replay then Err(InvalidCompletionPayload)
      else if !RetryAuthorized(acts[a]) then Err(StateError(InvalidEvent))
      else if RunningOutside(s.projection, {}) then Err(TerminalAuditBlocked)
      else
        var t :- Lift(PrepareActivity(s, a, acts[a].definition));
        if t.1.Execute? then Ok((t.0, RetryStarted(t.1.activity, t.1.attempt))) else Err(StateError(InvalidEvent))
  }

  // ---------------------------------------------------------------- stopping the run

  function ReceiptStatus(receipt: Receipt): RunStatus {
    if receipt.reason == "end_turn" || receipt.reason == "stop" then RunCompleted
    else if receipt.reason == "approval_interrupted" || receipt.reason == "cancelled" then RunCancelled
    else RunFailed
  }

  function StopId(status: RunStatus): EventId {
    RunEventId(StopPhase(status), RuntimeCommand)
  }

  function StopKind(status: RunStatus, reason: Note): EventKind
    requires Terminal(status)
  {
    match status
    case RunCompleted => EventKind.Complete
    case RunFailed => EventKind.Fail(reason)
    case RunCancelled => EventKind.Cancel(Some(reason))
  }

  /** Commit the runtime's closing checkpoint and the terminal event in one candidate state. */
  function StopAs(s: RunState, status: RunStatus, reason: Note): Result<RunState, Error>
    requires Terminal(status)
  {
    var t :- Checkpoint(s, StopCheckpoint(status), RuntimeStopped(status));
    StopRun(t, StopId(status), StopKind(status, reason))
  }

  function MutateFinalize(s: RunState, receipt: Receipt): Mutated {
    var expected := ReceiptStatus(receipt);
    if s.projection.status == expected then Ok((s, Done))
    else if Terminal(s.projection.status) then Err(StateError(InvalidEvent))
    else if s.projection.status == ReconciliationPending then Err(StateError(RunRequiresReconciliation))
    else if s.projection.status == Paused then Err(StateError(InvalidEvent))
    else WithoutReply(StopAs(s, expected, Text(receipt.reason)))
  }

  function MutateStop(s: RunState, status: RunStatus, reason: Note): Mutated
    requires Terminal(status)
  {
    if status != RunCompleted && (s.projection.status == ReconciliationPending || Terminal(s.projection.status)) then
      Ok((s, Done))
    else WithoutReply(StopAs(s, status, reason))
  }

  // ---------------------------------------------------------------- dispatch

  function MutateLease(s: RunState, kind: EventKind): Mutated
    requires kind.LeaseClaimed? || kind.LeaseRenewed? || kind.LeaseReleased?
  {
    match kind
    case LeaseClaimed(_, lease, at, _) =>
      var t :- Lift(Append(s, LeaseEventId(ClaimPhase, lease, at), kind));
      Ok((t, Flag(s.projection.lease.Some?)))
    case LeaseRenewed(_, lease, at, _) => WithoutReply(Append(s, LeaseEventId(RenewPhase, lease, at), kind))
    case LeaseReleased(_, lease, at) => WithoutReply(Append(s, LeaseEventId(ReleasePhase, lease, at), kind))
  }

  function MutateLifecycle(s: RunState, c: Command): Mutated
    requires c.BeginLifecycle? || c.CloseUnstarted? || c.CloseWithReplay? || c.CloseFromCanonical?
  {
    match c
    case BeginLifecycle(invocationId) => MutateBeginLifecycle(s, invocationId)
    case CloseUnstarted(a, n) => MutateCloseUnstarted(s, a, n)
    case CloseWithReplay(a, n, replay) => MutateCloseWithReplay(s, a, n, replay)
    case CloseFromCanonical(a, n) => MutateCloseFromCanonical(s, a, n)
  }

  function Mutate(s: RunState, c: Command): Mutated {
    match c
    case BeginActivity(a, d) => MutateBegin(s, a, d)
    case CommitCompletion(a, n, output) => WithoutReply(CompleteActivity(s, a, n, output))
    case CommitFailure(a, n, error, retryable, ambiguous) => WithDecision(FailActivity(s, a, n, error, retryable, ambiguous))
    case BeginLifecycle(_) => MutateLifecycle(s, c)
    case CloseUnstarted(_, _) => MutateLifecycle(s, c)
    case CloseWithReplay(_, _, _) => MutateLifecycle(s, c)
    case CloseFromCanonical(_, _) => MutateLifecycle(s, c)
    case BeginRunStopped(replay) => MutateBeginRunStopped(s, replay)
    case CompleteRunStopped(audit, n, lifecycle, m, replay) =>
      MutateCompleteLinked(s, Canonical, audit, n, lifecycle, m, replay)
    case FailLinked(audit, n, lifecycle, m) => MutateFailLinked(s, audit, n, lifecycle, m)
    case BeginRecovery(replay) => MutateBeginRecovery(s, replay)
    case CompleteRecovery(audit, n, lifecycle, m, replay) =>
      MutateCompleteLinked(s, Recovery, audit, n, lifecycle, m, replay)
    case BeginRetry(replay) => MutateBeginRetry(s, replay)
    case Finalize(receipt) => MutateFinalize(s, receipt)
    case CompleteRun => MutateStop(s, RunCompleted, Text(""))
    case FailRun(failure) => MutateStop(s, RunFailed, failure)
    case CancelRun(reason) => MutateStop(s, RunCancelled, reason)
    case ClassifyRun(active, order) =>
      var r :- Dispose(s, active, order);
      Ok((r.0, Judged(r.1)))
    case Reconcile(id, a, resolution) => WithoutReply(ReconcileActivity(s, id, a, resolution))
    case ClaimLease(owner, lease, at, expires) => MutateLease(s, LeaseClaimed(owner, lease, at, expires))
    case RenewLease(owner, lease, at, expires) => MutateLease(s, LeaseRenewed(owner, lease, at, expires))
    case ReleaseLease(owner, lease, at) => MutateLease(s, LeaseReleased(owner, lease, at))
    case HostEvent(id, kind) =>
      if !OutsideProtocol(kind) || !IdFits(id, kind) then Err(StateError(InvalidEvent))
      else WithoutReply(Append(s, id, kind))
  }
}

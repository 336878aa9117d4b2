/**
 The append-only run log (durability.rs): the events of a durable run, the projection they fold
 into, and the validation every appended event has to pass.

 Identifiers derived by hashing are modelled as injective datatypes: an activity is identified by
 its step and logical key, an event by its stable parts, and a digest by its preimage.
 */
module RunLog {
  import opened Wrappers

  /** The step namespace; the four named steps are reserved for the runtime's own audit protocol. */
  datatype Step =
    | Lifecycle
    | RunStoppedAudit
    | RecoveryAudit
    | LegacyRunStoppedAudit
    | Ordinary(name: string)

  datatype ActivityId = ActivityId(step: Step, key: string)

  const TERMINAL_KEY := "terminal"
  const CANONICAL_AUDIT := ActivityId(RunStoppedAudit, TERMINAL_KEY)
  const LEGACY_AUDIT := ActivityId(LegacyRunStoppedAudit, TERMINAL_KEY)
  const MAX_WORKER_LEASE_MS := 60 * 60 * 1000
  const MAX_ATTEMPTS := 0xFFFF_FFFF

  function LifecycleOf(invocationId: string): ActivityId {
    ActivityId(Lifecycle, invocationId)
  }

  function RecoveryOf(invocationId: string): ActivityId {
    ActivityId(RecoveryAudit, invocationId)
  }

  datatype SideEffectClass = Pure | Idempotent | ReconcileRequired

  datatype AuditKind = Canonical | Recovery | Direct

  datatype Receipt = Receipt(turns: nat, reason: string, usage: nat)

  datatype AuditBinding = AuditBinding(
    schemaVersion: nat, deliveryId: Option<string>, sinkCount: nat, failClosed: bool, maxPreviewBytes: nat)

  datatype Replay = Replay(
    schemaVersion: nat, kind: AuditKind, receipt: Receipt, auditRunId: string, invocationId: string,
    runStoppedSequence: nat, auditTurns: nat, auditReason: string, binding: AuditBinding)

  /** JSON payloads, by the shapes the protocol recognises; `Plain` is every other document. */
  datatype Value =
    | Plain(text: string)
    | LifecycleInput(auditRunId: string, invocationId: string)
    | AuditInput(replay: Replay, expectedOutput: Digest)
    | ReceiptValue(receipt: Receipt)
    | Accepted
    | NotStarted(stoppedRunId: string, stoppedInvocationId: string)
    | AuditClosed(closedBy: Replay)
    | ReplayAuthorized(authorized: Replay)

  datatype Digest = Sha(preimage: Value)

  /** Operator-facing explanations: caller-supplied text, or one of the runtime's fixed notes. */
  datatype Note =
    | Text(text: string)
    | WorkerInterrupted
    | UncommittedEffect
    | AmbiguousEffect
    | ReservedFailure(cause: Note)
    | AmbiguousFailure(cause: Note)
    | ReconciliationDone
    | ApprovalNeeded(approvalId: string)
    | OrphanLifecycle
    | OrphanRunStopped
    | OpenLifecycle
    | OpenRunStopped
    | OpenUnsafeActivity
    | UnsupportedLifecycleOutcome
    | UndeliveredRunStopped
    | OversizedResult
    | UnspecifiedReconciliation
    | RuntimeStopped(status: RunStatus)

  /** A checkpoint key: the three the runtime commits when it stops a run, or one a host chose. */
  datatype CheckpointKey = StopCheckpoint(status: RunStatus) | HostCheckpoint(key: string)

  datatype CommandId = RuntimeCommand | HostCommand(name: string)

  datatype AttemptStatus = Running | Completed | Failed | NeedsReconciliation | Cancelled

  /** One execution attempt; its number is its position in the record plus one. */
  datatype Attempt = Attempt(
    status: AttemptStatus, startedSequence: nat, finishedSequence: Option<nat>, output: Option<Value>,
    error: Option<Note>, retryable: bool, effectAmbiguous: bool)

  datatype Definition = Definition(input: Value, sideEffects: SideEffectClass, idempotencyKey: Option<string>)

  datatype Record = Record(definition: Definition, scheduledSequence: nat, attempts: seq<Attempt>)

  datatype RunStatus = Active | Paused | ReconciliationPending | RunCompleted | RunFailed | RunCancelled

  datatype ApprovalStatus = Pending | Approved | Rejected

  /** `window` is the request time and expiry of a typed approval; untyped approvals have none. */
  datatype Approval = Approval(window: Option<(nat, nat)>, status: ApprovalStatus)

  datatype Lease = Lease(ownerId: string, leaseId: string, acquiredAt: nat, heartbeatAt: nat, expiresAt: nat)

  datatype Mode = Sync | Async | Exit

  datatype Projection = Projection(
    status: RunStatus, pauseReason: Option<Note>, appState: string, activities: map<ActivityId, Record>,
    approvals: map<string, Approval>, checkpoints: set<CheckpointKey>, lease: Option<Lease>)

  datatype Resolution = ResolvedCompleted(output: Value) | SafeToRetry | ResolvedCancelled

  datatype EventKind =
    | RunStarted(sessionId: string, mode: Mode)
    | StateReplaced(appState: string)
    | LeaseClaimed(ownerId: string, leaseId: string, claimedAt: nat, claimExpiresAt: nat)
    | LeaseRenewed(renewOwnerId: string, renewLeaseId: string, renewedAt: nat, renewExpiresAt: nat)
    | LeaseReleased(releaseOwnerId: string, releaseLeaseId: string, releasedAt: nat)
    | ActivityScheduled(scheduled: ActivityId, definition: Definition)
    | AttemptStarted(started: ActivityId, startedAttempt: nat)
    | AttemptCompleted(completed: ActivityId, completedAttempt: nat, output: Value)
    | AttemptFailed(failed: ActivityId, failedAttempt: nat, error: Note, retryable: bool, effectAmbiguous: bool)
    | AttemptCancelled(cancelled: ActivityId, cancelledAttempt: nat, cancelReason: Note)
    | ReconciliationRequired(ambiguous: ActivityId, ambiguousAttempt: nat, ambiguity: Note)
    | ActivityReconciled(reconciled: ActivityId, reconciledAttempt: nat, resolution: Resolution)
    | ApprovalRequested(requestedId: string, window: Option<(nat, nat)>)
    | ApprovalResolved(resolvedId: string, approved: bool, clock: Option<(nat, bool)>)
    | CheckpointCommitted(checkpointId: CheckpointKey, caption: Option<Note>)
    | Pause(pauseReason: Note)
    | Resume
    | Complete
    | Fail(failure: Note)
    | Cancel(cancellation: Option<Note>)

  datatype AttemptPhase = StartPhase | InterruptPhase | ReconcilePhase | OrphanPhase | CompletePhase | FailPhase | CancelPhase

  datatype RunPhase = PausePhase | ResumePhase | StopPhase(status: RunStatus)

  datatype LeasePhase = ClaimPhase | RenewPhase | ReleasePhase

  /** The stable identity an event is deduplicated by; `Custom` is any caller-chosen one. */
  datatype EventId =
    | StartId
    | ScheduledId(activity: ActivityId)
    | AttemptId(activity: ActivityId, attempt: nat, phase: AttemptPhase)
    | ReconciledId(activity: ActivityId, attempt: nat, reconciliationId: string)
    | LeaseEventId(leasePhase: LeasePhase, leaseId: string, at: nat)
    | CheckpointEventId(checkpointId: CheckpointKey)
    | RunEventId(runPhase: RunPhase, commandId: CommandId)
    | Custom(name: string)

  datatype Event = Event(sequence: nat, id: EventId, kind: EventKind)

  datatype RunState = RunState(
    sessionId: string, runId: string, mode: Mode, events: seq<Event>, projection: Projection)

  datatype Error =
    | InvalidIdentifier
    | MissingRunStart
    | AlreadyStarted
    | DuplicateEventConflict
    | TerminalRun
    | RunRequiresReconciliation
    | RunNotExecuting
    | NotPaused
    | PendingApprovals
    | LeaseHeld
    | LeaseLost
    | ActivityNotFound
    | ActivityInputChanged
    | MissingIdempotencyKey
    | InvalidActivityTransition
    | ApprovalNotFound
    | ApprovalAlreadyResolved
    | InvalidApprovalResolution
    | InvalidEvent

  // ---------------------------------------------------------------- queries

  predicate ControlChar(c: char) {
    c < ' ' || '\U{7f}' <= c <= '\U{9f}'
  }

  predicate ValidIdentifier(s: string) {
    s != "" && forall i :: 0 <= i < |s| ==> !ControlChar(s[i])
  }

  predicate Terminal(status: RunStatus) {
    status.RunCompleted? || status.RunFailed? || status.RunCancelled?
  }

  predicate IsReserved(a: ActivityId, d: Definition) {
    match a.step
    case LegacyRunStoppedAudit => a.key == TERMINAL_KEY
    case RunStoppedAudit => a.key == TERMINAL_KEY && d.input.AuditInput?
    case RecoveryAudit => d.input.AuditInput?
    case Lifecycle => d.input.LifecycleInput? && d.input.invocationId == a.key
    case Ordinary(_) => false
  }

  predicate LatestIs(r: Record, status: AttemptStatus) {
    r.attempts != [] && r.attempts[|r.attempts| - 1].status == status
  }

  /** The most recent completed attempt decides whether an activity has a committed output. */
  function CompletedOutput(r: Record): Option<Value>
  {
    CompletedAmong(r.attempts)
  }

  function CompletedAmong(attempts: seq<Attempt>): Option<Value> {
    if attempts == [] then None
    else if attempts[|attempts| - 1].status == Completed then attempts[|attempts| - 1].output
    else CompletedAmong(attempts[..|attempts| - 1])
  }

  /** The latest attempt failed in a way that may be repeated without risk. */
  predicate RetryAuthorized(r: Record) {
    && LatestIs(r, Failed)
    && r.attempts[|r.attempts| - 1].retryable
    && !r.attempts[|r.attempts| - 1].effectAmbiguous
  }

  predicate RetryIsSafe(d: Definition, effectAmbiguous: bool) {
    || !effectAmbiguous
    || d.sideEffects == Pure
    || (d.sideEffects == Idempotent && d.idempotencyKey.Some? && d.idempotencyKey.value != "")
  }

  predicate HasPendingReconciliation(p: Projection) {
    exists a :: a in p.activities && LatestIs(p.activities[a], NeedsReconciliation)
  }

  predicate HasPendingApproval(p: Projection) {
    exists id :: id in p.approvals && p.approvals[id].status == Pending
  }

  predicate HasRunningAttempt(p: Projection) {
    exists a, i :: a in p.activities && 0 <= i < |p.activities[a].attempts|
                   && p.activities[a].attempts[i].status == Running
  }

  /** A terminal audit marker of either kind closes the run to ordinary work. */
  predicate HasTerminalMarker(p: Projection) {
    exists a :: a in p.activities && (a.step == RunStoppedAudit || a.step == RecoveryAudit)
                && IsReserved(a, p.activities[a].definition)
  }

  predicate ReservedAuditsClosed(p: Projection) {
    forall a :: a in p.activities && IsReserved(a, p.activities[a].definition)
                ==> a.step != LegacyRunStoppedAudit && CompletedOutput(p.activities[a]).Some?
  }

  predicate LeaseWindowOk(start: nat, expires: nat) {
    0 < expires - start <= MAX_WORKER_LEASE_MS
  }

  // ---------------------------------------------------------------- reserved audit validation

  predicate ValidBinding(b: AuditBinding) {
    b.schemaVersion == 1 && b.maxPreviewBytes != 0 && (b.deliveryId.Some? ==> ValidIdentifier(b.deliveryId.value))
  }

  predicate StableBinding(b: AuditBinding) {
    b.deliveryId.Some? && b.sinkCount != 0 && b.failClosed
  }

  predicate ValidReplay(r: Replay, kind: AuditKind) {
    && r.schemaVersion == 1
    && r.kind == kind
    && r.runStoppedSequence > 0
    && r.auditReason != ""
    && r.receipt.reason != ""
    && ValidBinding(r.binding)
    && (kind != Recovery ==> r.auditTurns == r.receipt.turns && r.auditReason == r.receipt.reason)
  }

  function ExpectedOutput(r: Replay): Value {
    if r.kind == Recovery then Accepted else ReceiptValue(r.receipt)
  }

  predicate AuditIntentOk(runId: string, a: ActivityId, d: Definition, kind: AuditKind) {
    && d.input.AuditInput?
    && ValidReplay(d.input.replay, kind)
    && d.input.replay.auditRunId == runId
    && ValidIdentifier(d.input.replay.invocationId)
    && (kind == Recovery ==> d.input.replay.invocationId == a.key)
    && d.input.expectedOutput == Sha(ExpectedOutput(d.input.replay))
  }

  /** The lifecycle of `invocationId` is running and nothing else is. */
  predicate OnlyLifecycleRunning(runId: string, acts: map<ActivityId, Record>, invocationId: string) {
    var lifecycle := LifecycleOf(invocationId);
    && lifecycle in acts
    && IsReserved(lifecycle, acts[lifecycle].definition)
    && acts[lifecycle].definition.input.auditRunId == runId
    && LatestIs(acts[lifecycle], Running)
    && (forall b :: b in acts && b != lifecycle ==> !LatestIs(acts[b], Running))
  }

  predicate AuditOutputMatchesIntent(a: ActivityId, d: Definition, output: Value) {
    a.step == RunStoppedAudit || a.step == RecoveryAudit ==>
      && (a.step == RunStoppedAudit ==> a.key == TERMINAL_KEY)
      && d.input.AuditInput?
      && d.input.expectedOutput == Sha(output)
  }

  predicate CanonicalReceiptSupersedes(acts: map<ActivityId, Record>, replay: Replay) {
    && CANONICAL_AUDIT in acts
    && var canonical := acts[CANONICAL_AUDIT];
    && canonical.definition.input.AuditInput?
    && canonical.definition.input.replay.invocationId != replay.invocationId
    && CompletedOutput(canonical) == Some(ReceiptValue(replay.receipt))
    && AuditOutputMatchesIntent(CANONICAL_AUDIT, canonical.definition, ReceiptValue(replay.receipt))
  }

  predicate AuditScheduleOk(runId: string, acts: map<ActivityId, Record>, a: ActivityId, d: Definition, kind: AuditKind) {
    && AuditIntentOk(runId, a, d, kind)
    && OnlyLifecycleRunning(runId, acts, d.input.replay.invocationId)
    && (kind == Recovery ==> CanonicalReceiptSupersedes(acts, d.input.replay))
  }

  predicate ReservedScheduleOk(runId: string, acts: map<ActivityId, Record>, a: ActivityId, d: Definition) {
    match a.step
    case LegacyRunStoppedAudit => false
    case Ordinary(_) => true
    case RunStoppedAudit =>
      && d.sideEffects == ReconcileRequired && d.idempotencyKey.None?
      && a.key == TERMINAL_KEY && AuditScheduleOk(runId, acts, a, d, Canonical)
    case RecoveryAudit =>
      && d.sideEffects == ReconcileRequired && d.idempotencyKey.None?
      && AuditScheduleOk(runId, acts, a, d, Recovery)
    case Lifecycle =>
      && d.sideEffects == ReconcileRequired && d.idempotencyKey.None?
      && d.input == LifecycleInput(runId, a.key) && ValidIdentifier(a.key)
  }

  predicate TerminalReplayOk(runId: string, a: ActivityId, d: Definition) {
    var kind := if a.step == RecoveryAudit then Recovery else Canonical;
    && (kind == Canonical ==> a.key == TERMINAL_KEY)
    && AuditIntentOk(runId, a, d, kind)
    && ValidIdentifier(runId)
    && StableBinding(d.input.replay.binding)
  }

  /** The audit activity that delivers a replay. */
  function AuditOf(replay: Replay): ActivityId {
    if replay.kind == Canonical then CANONICAL_AUDIT else RecoveryOf(replay.invocationId)
  }

  /** `a` is the audit that delivers `replay`, and it was scheduled with exactly this intent. */
  predicate LinkedAudit(acts: map<ActivityId, Record>, replay: Replay, a: ActivityId) {
    && replay.kind != Direct
    && a == AuditOf(replay)
    && a in acts
    && acts[a].definition.input.AuditInput?
    && acts[a].definition.input.replay == replay
  }

  /** Some terminal audit was scheduled on behalf of this invocation. */
  predicate HasAuditFor(acts: map<ActivityId, Record>, invocationId: string) {
    exists a :: a in acts && (a.step == RunStoppedAudit || a.step == RecoveryAudit)
                && acts[a].definition.input.AuditInput?
                && acts[a].definition.input.replay.invocationId == invocationId
  }

  /** validate_lifecycle_reconciliation_output: the outcome that closes an invocation lifecycle. */
  predicate LifecycleClosureOk(runId: string, acts: map<ActivityId, Record>, a: ActivityId, d: Definition, output: Value) {
    && d.input == LifecycleInput(runId, a.key)
    && (output.AuditClosed? || output.ReplayAuthorized?)
    && var replay := if output.AuditClosed? then output.closedBy else output.authorized;
    && replay.auditRunId == runId
    && replay.invocationId == a.key
    && ValidReplay(replay, replay.kind)
    && match replay.kind
       case Direct => output.AuditClosed? && !HasAuditFor(acts, a.key)
       case _ =>
         var audit := AuditOf(replay);
         && LinkedAudit(acts, replay, audit)
         && (if output.AuditClosed?
             then CompletedOutput(acts[audit]).Some?
                  && AuditOutputMatchesIntent(audit, acts[audit].definition, CompletedOutput(acts[audit]).value)
             else RetryAuthorized(acts[audit]) && TerminalReplayOk(runId, audit, acts[audit].definition))
  }

  /** validate_lifecycle_not_started_output: nothing ran behind this fence. */
  predicate NotStartedOk(
    runId: string, acts: map<ActivityId, Record>, a: ActivityId, r: Record, output: Value,
    boundary: nat, requireOrphan: bool)
  {
    && r.definition.input == LifecycleInput(runId, a.key)
    && output == NotStarted(runId, a.key)
    && !HasAuditFor(acts, a.key)
    && !(exists b, i :: b in acts && b != a && 0 <= i < |acts[b].attempts|
                        && acts[b].attempts[i].startedSequence > boundary)
    && (requireOrphan ==>
          && LatestIs(r, NeedsReconciliation)
          && var last := r.attempts[|r.attempts| - 1];
          last.finishedSequence == Some(last.startedSequence))
  }

  predicate AttemptStartOk(runId: string, acts: map<ActivityId, Record>, a: ActivityId, r: Record) {
    IsReserved(a, r.definition) ==>
      match a.step
      case LegacyRunStoppedAudit => false
      case Ordinary(_) => true
      case Lifecycle => r.definition.input.auditRunId == runId
      case RunStoppedAudit =>
        if r.attempts == [] then AuditScheduleOk(runId, acts, a, r.definition, Canonical)
        else AuditRetryAuthorized(runId, acts, a, r.definition)
      case RecoveryAudit =>
        if r.attempts == [] then AuditScheduleOk(runId, acts, a, r.definition, Recovery)
        else AuditRetryAuthorized(runId, acts, a, r.definition)
  }

  predicate AuditRetryAuthorized(runId: string, acts: map<ActivityId, Record>, a: ActivityId, d: Definition) {
    && TerminalReplayOk(runId, a, d)
    && var lifecycle := LifecycleOf(d.input.replay.invocationId);
    && lifecycle in acts
    && IsReserved(lifecycle, acts[lifecycle].definition)
    && CompletedOutput(acts[lifecycle]) == Some(ReplayAuthorized(d.input.replay))
    && LifecycleClosureOk(runId, acts, lifecycle, acts[lifecycle].definition, ReplayAuthorized(d.input.replay))
  }

  predicate CompletionOk(runId: string, acts: map<ActivityId, Record>, a: ActivityId, r: Record, output: Value) {
    IsReserved(a, r.definition) ==>
      match a.step
      case LegacyRunStoppedAudit => false
      case Ordinary(_) => true
      case RunStoppedAudit => AuditOutputMatchesIntent(a, r.definition, output)
      case RecoveryAudit => AuditOutputMatchesIntent(a, r.definition, output)
      case Lifecycle =>
        match output
        case NotStarted(_, _) =>
          && r.attempts != []
          && NotStartedOk(runId, acts, a, r, output, r.attempts[|r.attempts| - 1].startedSequence, false)
        case AuditClosed(_) => LifecycleClosureOk(runId, acts, a, r.definition, output)
        case _ => false
  }

  predicate ReconciliationOk(runId: string, acts: map<ActivityId, Record>, a: ActivityId, r: Record, resolution: Resolution) {
    IsReserved(a, r.definition) ==>
      match resolution
      case ResolvedCancelled => false
      case SafeToRetry =>
        a.step != Lifecycle && a.step != LegacyRunStoppedAudit && TerminalReplayOk(runId, a, r.definition)
      case ResolvedCompleted(output) =>
        match a.step
        case LegacyRunStoppedAudit => false
        case Ordinary(_) => true
        case RunStoppedAudit => AuditOutputMatchesIntent(a, r.definition, output)
        case RecoveryAudit => AuditOutputMatchesIntent(a, r.definition, output)
        case Lifecycle =>
          if output.NotStarted?
          then NotStartedOk(runId, acts, a, r, output, r.scheduledSequence, true)
          else LifecycleClosureOk(runId, acts, a, r.definition, output)
  }

  // ---------------------------------------------------------------- applying one event

  function EnsureActive(p: Projection): Result<(), Error> {
    if Terminal(p.status) then Err(TerminalRun) else Ok(())
  }

  function EnsureExecuting(p: Projection): Result<(), Error> {
    var _ :- EnsureActive(p);
    if p.status == ReconciliationPending then Err(RunRequiresReconciliation)
    else if p.status != Active then Err(RunNotExecuting)
    else Ok(())
  }

  /** Active or paused: the run may still pause, request approvals and checkpoint. */
  function EnsureNotReconciling(p: Projection): Result<(), Error> {
    var _ :- EnsureActive(p);
    if p.status == ReconciliationPending then Err(RunRequiresReconciliation) else Ok(())
  }

  function WithAttempt(p: Projection, a: ActivityId, i: nat, attempt: Attempt): Projection
    requires a in p.activities && i < |p.activities[a].attempts|
  {
    var r := p.activities[a];
    p.(activities := p.activities[a := r.(attempts := r.attempts[i := attempt])])
  }

  function WithNewAttempt(p: Projection, a: ActivityId, attempt: Attempt): Projection
    requires a in p.activities
  {
    var r := p.activities[a];
    p.(activities := p.activities[a := r.(attempts := r.attempts + [attempt])])
  }

  function ApplyLease(p: Projection, kind: EventKind): Result<Projection, Error>
    requires kind.LeaseClaimed? || kind.LeaseRenewed? || kind.LeaseReleased?
  {
    match kind
    case LeaseClaimed(owner, id, at, expires) =>
      if !ValidIdentifier(owner) || !ValidIdentifier(id) then Err(InvalidIdentifier)
      else if !LeaseWindowOk(at, expires) then Err(InvalidEvent)
      else if p.lease.Some? && p.lease.value.expiresAt > at then Err(LeaseHeld)
      else Ok(p.(lease := Some(Lease(owner, id, at, at, expires))))
    case LeaseRenewed(owner, id, at, expires) =>
      if !ValidIdentifier(owner) || !ValidIdentifier(id) then Err(InvalidIdentifier)
      else if !LeaseWindowOk(at, expires) then Err(InvalidEvent)
      else if p.lease.None? then Err(LeaseLost)
      else
        var held := p.lease.value;
        if held.ownerId != owner || held.leaseId != id || held.expiresAt <= at || held.heartbeatAt > at
           || expires <= held.expiresAt
        then Err(LeaseLost)
        else Ok(p.(lease := Some(held.(heartbeatAt := at, expiresAt := expires))))
    case LeaseReleased(owner, id, at) =>
      if !ValidIdentifier(owner) || !ValidIdentifier(id) then Err(InvalidIdentifier)
      else if p.lease.None? then Err(LeaseLost)
      else
        var held := p.lease.value;
        if held.ownerId != owner || held.leaseId != id || held.expiresAt <= at || at < held.heartbeatAt
        then Err(LeaseLost)
        else Ok(p.(lease := None))
  }

  function ApplyScheduled(runId: string, p: Projection, a: ActivityId, d: Definition, sequence: nat)
    : Result<Projection, Error>
  {
    var _ :- EnsureExecuting(p);
    if d.sideEffects == Idempotent && (d.idempotencyKey.None? || d.idempotencyKey.value == "") then
      Err(MissingIdempotencyKey)
    else if a in p.activities then Err(InvalidActivityTransition)
    else if (a.step.Ordinary? || a.step.LegacyRunStoppedAudit?) && HasTerminalMarker(p) then Err(InvalidEvent)
    else if !ReservedScheduleOk(runId, p.activities, a, d) then Err(InvalidEvent)
    else Ok(p.(activities := p.activities[a := Record(d, sequence, [])]))
  }

  function ApplyStarted(runId: string, p: Projection, a: ActivityId, n: nat, sequence: nat): Result<Projection, Error>
  {
    var _ :- EnsureExecuting(p);
    if a !in p.activities then Err(ActivityNotFound)
    else
      var r := p.activities[a];
      if !IsReserved(a, r.definition) && HasTerminalMarker(p) then Err(InvalidEvent)
      else if !AttemptStartOk(runId, p.activities, a, r) then Err(InvalidEvent)
      else if n != |r.attempts| + 1 then Err(InvalidActivityTransition)
      else if r.attempts != [] && (!LatestIs(r, Failed) || !r.attempts[|r.attempts| - 1].retryable) then
        Err(InvalidActivityTransition)
      else if r.attempts != [] && !RetryIsSafe(r.definition, r.attempts[|r.attempts| - 1].effectAmbiguous) then
        Err(InvalidActivityTransition)
      else Ok(WithNewAttempt(p, a, Attempt(Running, sequence, None, None, None, false, false)))
  }

  /** The running attempt `n` of `a`, or the error `running_attempt_mut` reports. */
  function RunningAttempt(p: Projection, a: ActivityId, n: nat): Result<Attempt, Error> {
    if a !in p.activities then Err(ActivityNotFound)
    else if !(1 <= n <= |p.activities[a].attempts|) then Err(InvalidActivityTransition)
    else if p.activities[a].attempts[n - 1].status != Running then Err(InvalidActivityTransition)
    else Ok(p.activities[a].attempts[n - 1])
  }

  function ApplyCompleted(runId: string, p: Projection, a: ActivityId, n: nat, output: Value, sequence: nat)
    : Result<Projection, Error>
  {
    var _ :- EnsureActive(p);
    if a !in p.activities then Err(ActivityNotFound)
    else if !CompletionOk(runId, p.activities, a, p.activities[a], output) then Err(InvalidEvent)
    else
      var attempt :- RunningAttempt(p, a, n);
      Ok(WithAttempt(p, a, n - 1,
                     attempt.(status := Completed, finishedSequence := Some(sequence), output := Some(output))))
  }

  function ApplyFailed(p: Projection, a: ActivityId, n: nat, error: Note, retryable: bool, ambiguous: bool, sequence: nat)
    : Result<Projection, Error>
  {
    var _ :- EnsureActive(p);
    if a !in p.activities then Err(ActivityNotFound)
    else if IsReserved(a, p.activities[a].definition) then Err(InvalidEvent)
    else
      var attempt :- RunningAttempt(p, a, n);
      Ok(WithAttempt(p, a, n - 1,
                     attempt.(status := Failed, finishedSequence := Some(sequence), error := Some(error),
                     retryable := retryable, effectAmbiguous := ambiguous)))
  }

  function ApplyCancelled(p: Projection, a: ActivityId, n: nat, reason: Note, sequence: nat): Result<Projection, Error>
  {
    var _ :- EnsureActive(p);
    if a !in p.activities then Err(ActivityNotFound)
    else if IsReserved(a, p.activities[a].definition) then Err(InvalidEvent)
    else
      var attempt :- RunningAttempt(p, a, n);
      Ok(WithAttempt(p, a, n - 1,
                     attempt.(status := Cancelled, finishedSequence := Some(sequence), error := Some(reason),
                     retryable := false, effectAmbiguous := false)))
  }

  function ApplyReconciliationRequired(p: Projection, a: ActivityId, n: nat, reason: Note, sequence: nat)
    : Result<Projection, Error>
  {
    var _ :- EnsureActive(p);
    if a !in p.activities then Err(ActivityNotFound)
    else
      var r := p.activities[a];
      var blocked := p.(status := ReconciliationPending, pauseReason := Some(reason));
      if r.attempts == [] then
        if n != 1 || !IsReserved(a, r.definition) then Err(InvalidActivityTransition)
        else Ok(WithNewAttempt(blocked, a,
                               Attempt(NeedsReconciliation, sequence, Some(sequence), None, Some(reason), false, true)))
      else if !(1 <= n <= |r.attempts|) then Err(InvalidActivityTransition)
      else if r.attempts[n - 1].status != Running && r.attempts[n - 1].status != Failed then
        Err(InvalidActivityTransition)
      else Ok(WithAttempt(blocked, a, n - 1,
                          r.attempts[n - 1].(status := NeedsReconciliation, finishedSequence := Some(sequence),
                          error := Some(reason), effectAmbiguous := true)))
  }

  function Resolved(attempt: Attempt, resolution: Resolution, sequence: nat): Attempt {
    match resolution
    case ResolvedCompleted(output) =>
      attempt.(status := Completed, output := Some(output), retryable := false, effectAmbiguous := false,
      finishedSequence := Some(sequence))
    case SafeToRetry =>
      attempt.(status := Failed, retryable := true, effectAmbiguous := false, finishedSequence := Some(sequence))
    case ResolvedCancelled =>
      attempt.(status := Cancelled, retryable := false, effectAmbiguous := false, finishedSequence := Some(sequence))
  }

  /** Once nothing is left to reconcile, a live run waits, paused, for an explicit resume. */
  function PauseIfReconciled(p: Projection): Projection {
    if !Terminal(p.status) && !HasPendingReconciliation(p)
    then p.(status := Paused, pauseReason := Some(ReconciliationDone))
    else p
  }

  function ApplyReconciled(runId: string, p: Projection, a: ActivityId, n: nat, resolution: Resolution, sequence: nat)
    : Result<Projection, Error>
  {
    if a !in p.activities then Err(ActivityNotFound)
    else
      var r := p.activities[a];
      if !ReconciliationOk(runId, p.activities, a, r, resolution) then Err(InvalidEvent)
      else if !(1 <= n <= |r.attempts|) then Err(InvalidActivityTransition)
      else if r.attempts[n - 1].status != NeedsReconciliation then Err(InvalidActivityTransition)
      else Ok(PauseIfReconciled(WithAttempt(p, a, n - 1, Resolved(r.attempts[n - 1], resolution, sequence))))
  }

  function ApplyApprovalRequested(p: Projection, id: string, window: Option<(nat, nat)>): Result<Projection, Error>
  {
    var _ :- EnsureNotReconciling(p);
    if id in p.approvals then Err(InvalidEvent)
    else if window.Some? && window.value.1 <= window.value.0 then Err(InvalidEvent)
    else Ok(p.(approvals := p.approvals[id := Approval(window, Pending)], status := Paused,
               pauseReason := Some(ApprovalNeeded(id))))
  }

  /** A typed resolution carries its trusted clock reading and whether it is a timeout denial. */
  predicate ResolutionClockOk(approval: Approval, approved: bool, clock: Option<(nat, bool)>) {
    approval.window.Some? ==>
      && clock.Some?
      && clock.value.0 >= approval.window.value.0
      && (if clock.value.1 then !approved && clock.value.0 >= approval.window.value.1
          else clock.value.0 < approval.window.value.1)
  }

  function ApplyApprovalResolved(p: Projection, id: string, approved: bool, clock: Option<(nat, bool)>)
    : Result<Projection, Error>
  {
    if id !in p.approvals then Err(ApprovalNotFound)
    else
      var approval := p.approvals[id];
      if approval.status != Pending then Err(ApprovalAlreadyResolved)
      else if !ResolutionClockOk(approval, approved, clock) then Err(InvalidApprovalResolution)
      else Ok(p.(approvals := p.approvals[id := approval.(status := if approved then Approved else Rejected)]))
  }

  function ApplyStop(p: Projection, kind: EventKind): Result<Projection, Error>
    requires kind.Complete? || kind.Fail? || kind.Cancel?
  {
    var _ :- EnsureActive(p);
    if !ReservedAuditsClosed(p) then Err(InvalidEvent)
    else if kind.Complete? && HasPendingApproval(p) then Err(PendingApprovals)
    else if kind.Complete? && HasPendingReconciliation(p) then Err(RunRequiresReconciliation)
    else if HasRunningAttempt(p) then Err(InvalidEvent)
    else Ok(match kind
            case Complete => p.(status := RunCompleted, pauseReason := None)
            case Fail(failure) => p.(status := RunFailed, pauseReason := Some(failure))
            case Cancel(reason) => p.(status := RunCancelled, pauseReason := reason))
  }

  predicate ActivityKind(kind: EventKind) {
    || kind.ActivityScheduled? || kind.AttemptStarted? || kind.AttemptCompleted? || kind.AttemptFailed?
    || kind.AttemptCancelled? || kind.ReconciliationRequired? || kind.ActivityReconciled?
  }

  function Subject(kind: EventKind): ActivityId
    requires ActivityKind(kind)
  {
    match kind
    case ActivityScheduled(a, _) => a
    case AttemptStarted(a, _) => a
    case AttemptCompleted(a, _, _) => a
    case AttemptFailed(a, _, _, _, _) => a
    case AttemptCancelled(a, _, _) => a
    case ReconciliationRequired(a, _, _) => a
    case ActivityReconciled(a, _, _) => a
  }

  /** A control event, or an event of an ordinary activity: nothing of the runtime's own audit protocol. */
  predicate OutsideProtocol(kind: EventKind) {
    ActivityKind(kind) ==> Subject(kind).step.Ordinary?
  }

  /** The activity and attempt an event reports an outcome for. */
  predicate Settles(kind: EventKind, a: ActivityId, n: nat) {
    match kind
    case AttemptCompleted(b, m, _) => b == a && m == n
    case AttemptFailed(b, m, _, _, _) => b == a && m == n
    case AttemptCancelled(b, m, _) => b == a && m == n
    case ReconciliationRequired(b, m, _) => b == a && m == n
    case ActivityReconciled(b, m, _) => b == a && m == n
    case _ => false
  }

  /** An identity derived from an attempt is used for nothing but the start or an outcome of that attempt. */
  predicate IdFits(id: EventId, kind: EventKind) {
    id.AttemptId? ==>
      if id.phase == StartPhase then kind == AttemptStarted(id.activity, id.attempt)
      else Settles(kind, id.activity, id.attempt)
  }

  function ApplyActivity(runId: string, p: Projection, kind: EventKind, sequence: nat): Result<Projection, Error>
    requires ActivityKind(kind)
  {
    match kind
    case ActivityScheduled(a, d) => ApplyScheduled(runId, p, a, d, sequence)
    case AttemptStarted(a, n) => ApplyStarted(runId, p, a, n, sequence)
    case AttemptCompleted(a, n, output) => ApplyCompleted(runId, p, a, n, output, sequence)
    case AttemptFailed(a, n, error, retryable, ambiguous) =>
      ApplyFailed(p, a, n, error, retryable, ambiguous, sequence)
    case AttemptCancelled(a, n, reason) => ApplyCancelled(p, a, n, reason, sequence)
    case ReconciliationRequired(a, n, reason) => ApplyReconciliationRequired(p, a, n, reason, sequence)
    case ActivityReconciled(a, n, resolution) => ApplyReconciled(runId, p, a, n, resolution, sequence)
  }

  function ApplyControl(p: Projection, kind: EventKind): Result<Projection, Error>
    requires !ActivityKind(kind)
  {
    match kind
    case RunStarted(_, _) => Err(AlreadyStarted)
    case StateReplaced(value) =>
      var _ :- EnsureExecuting(p);
      Ok(p.(appState := value))
    case LeaseClaimed(_, _, _, _) => ApplyLease(p, kind)
    case LeaseRenewed(_, _, _, _) => ApplyLease(p, kind)
    case LeaseReleased(_, _, _) => ApplyLease(p, kind)
    case ApprovalRequested(id, window) => ApplyApprovalRequested(p, id, window)
    case ApprovalResolved(id, approved, clock) => ApplyApprovalResolved(p, id, approved, clock)
    case CheckpointCommitted(id, _) =>
      var _ :- EnsureActive(p);
      if id in p.checkpoints then Err(InvalidEvent) else Ok(p.(checkpoints := p.checkpoints + {id}))
    case Pause(reason) =>
      var _ :- EnsureNotReconciling(p);
      Ok(p.(status := Paused, pauseReason := Some(reason)))
    case Resume =>
      if p.status != Paused then Err(NotPaused)
      else if HasPendingApproval(p) then Err(PendingApprovals)
      else if HasPendingReconciliation(p) then Err(RunRequiresReconciliation)
      else Ok(p.(status := Active, pauseReason := None))
    case Complete => ApplyStop(p, kind)
    case Fail(_) => ApplyStop(p, kind)
    case Cancel(_) => ApplyStop(p, kind)
  }

  function Apply(runId: string, p: Projection, kind: EventKind, sequence: nat): Result<Projection, Error> {
    if ActivityKind(kind) then ApplyActivity(runId, p, kind, sequence) else ApplyControl(p, kind)
  }

  // ---------------------------------------------------------------- logs

  const ROOT := Projection(Active, None, "", map[], map[], {}, None)

  function NewRun(sessionId: string, runId: string, mode: Mode): Result<RunState, Error> {
    if !ValidIdentifier(sessionId) || !ValidIdentifier(runId) then Err(InvalidIdentifier)
    else Ok(RunState(sessionId, runId, mode, [Event(1, StartId, RunStarted(sessionId, mode))], ROOT))
  }

  predicate IdUsed(events: seq<Event>, id: EventId) {
    exists i :: 0 <= i < |events| && events[i].id == id
  }

  predicate IdUsedFor(events: seq<Event>, id: EventId, kind: EventKind) {
    exists i :: 0 <= i < |events| && events[i].id == id && events[i].kind == kind
  }

  /** append_event: a known event is absorbed, a conflicting one refused, a new one validated. */
  function Append(s: RunState, id: EventId, kind: EventKind): Result<RunState, Error> {
    if IdUsedFor(s.events, id, kind) then Ok(s)
    else if IdUsed(s.events, id) then Err(DuplicateEventConflict)
    else
      var p :- Apply(s.runId, s.projection, kind, |s.events| + 1);
      Ok(s.(events := s.events + [Event(|s.events| + 1, id, kind)], projection := p))
  }

  /** from_events: rebuild a run from its log alone. */
  function Rebuild(sessionId: string, runId: string, mode: Mode, events: seq<Event>): Result<RunState, Error> {
    if events == [] then Err(MissingRunStart)
    else
      var last := events[|events| - 1];
      if |events| == 1 then
        if last == Event(1, StartId, RunStarted(sessionId, mode)) then NewRun(sessionId, runId, mode)
        else Err(MissingRunStart)
      else
        var prior :- Rebuild(sessionId, runId, mode, events[..|events| - 1]);
        if IdUsed(prior.events, last.id) || last.sequence != |events| then Err(DuplicateEventConflict)
        else
          var p :- Apply(runId, prior.projection, last.kind, |events|);
          Ok(prior.(events := events, projection := p))
  }

  /** A run state is exactly what its own log rebuilds to. */
  predicate Valid(s: RunState) {
    Rebuild(s.sessionId, s.runId, s.mode, s.events) == Ok(s)
  }

  function LastSequence(s: RunState): nat {
    if s.events == [] then 0 else s.events[|s.events| - 1].sequence
  }

  predicate Extends(later: RunState, earlier: RunState) {
    && later.sessionId == earlier.sessionId
    && later.runId == earlier.runId
    && later.mode == earlier.mode
    && earlier.events <= later.events
  }
}

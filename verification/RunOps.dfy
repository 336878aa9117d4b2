/**
 The activity operations of a run state (durability.rs). Each either appends validated events or
 fails without effect; callers work on a copy, so a failed composition leaves the original intact.
 */
module RunOps {
  import opened Wrappers
  import opened RunLog

  datatype Decision =
    | Execute(activity: ActivityId, attempt: nat, idempotencyKey: Option<string>)
    | ReuseCompleted(activity: ActivityId, output: Value)
    | MustReconcile(activity: ActivityId)
    | PreviouslyFailed(activity: ActivityId)
    | PreviouslyCancelled(activity: ActivityId)

  type Decided = Result<(RunState, Decision), Error>

  function PrepareActivity(s: RunState, a: ActivityId, d: Definition): Decided {
    if !ValidIdentifier(a.key) || (a.step.Ordinary? && !ValidIdentifier(a.step.name)) then Err(InvalidIdentifier)
    else
      var _ :- EnsureExecuting(s.projection);
      if a in s.projection.activities then
        var known := s.projection.activities[a].definition;
        if known.input != d.input then Err(ActivityInputChanged)
        else if known != d then Err(InvalidActivityTransition)
        else DecideActivity(s, a)
      else if d.sideEffects == Idempotent && (d.idempotencyKey.None? || d.idempotencyKey.value == "") then
        Err(MissingIdempotencyKey)
      else
        var t :- Append(s, ScheduledId(a), ActivityScheduled(a, d));
        DecideActivity(t, a)
  }

  /** Open the next attempt, which is the only way a caller obtains permission to execute. */
  function StartNext(s: RunState, a: ActivityId): Decided
    requires a in s.projection.activities
  {
    var r := s.projection.activities[a];
    var n := |r.attempts| + 1;
    if n > MAX_ATTEMPTS then Err(InvalidActivityTransition)
    else
      var t :- Append(s, AttemptId(a, n, StartPhase), AttemptStarted(a, n));
      Ok((t, Execute(a, n, r.definition.idempotencyKey)))
  }

  function DecideActivity(s: RunState, a: ActivityId): Decided {
    if a !in s.projection.activities then Err(ActivityNotFound)
    else
      var r := s.projection.activities[a];
      var n := |r.attempts|;
      if CompletedOutput(r).Some? then Ok((s, ReuseCompleted(a, CompletedOutput(r).value)))
      else if r.attempts == [] then StartNext(s, a)
      else
        match r.attempts[n - 1].status
        case Running =>
          if RetryIsSafe(r.definition, true) then
            var t :- Append(s, AttemptId(a, n, InterruptPhase),
                            AttemptFailed(a, n, WorkerInterrupted, true, true));
            if a in t.projection.activities then StartNext(t, a) else Err(ActivityNotFound)
          else
            var t :- Append(s, AttemptId(a, n, ReconcilePhase),
                            ReconciliationRequired(a, n, UncommittedEffect));
            Ok((t, MustReconcile(a)))
        case Failed =>
          if !r.attempts[n - 1].retryable then Ok((s, PreviouslyFailed(a)))
          else if !RetryIsSafe(r.definition, r.attempts[n - 1].effectAmbiguous) then
            var t :- Append(s, AttemptId(a, n, ReconcilePhase),
                            ReconciliationRequired(a, n, AmbiguousEffect));
            Ok((t, MustReconcile(a)))
          else StartNext(s, a)
        case NeedsReconciliation => Ok((s, MustReconcile(a)))
        case Cancelled => Ok((s, PreviouslyCancelled(a)))
        case Completed => Err(InvalidActivityTransition) // a completed attempt always has its output
  }

  /** Committing the same output twice is absorbed; a different output for a completed attempt is refused. */
  function CompleteActivity(s: RunState, a: ActivityId, n: nat, output: Value): Result<RunState, Error> {
    var _ :- EnsureActive(s.projection);
    if a !in s.projection.activities then Err(ActivityNotFound)
    else
      var attempts := s.projection.activities[a].attempts;
      if 1 <= n <= |attempts| && attempts[n - 1].status == Completed then
        if attempts[n - 1].output == Some(output) then Ok(s) else Err(DuplicateEventConflict)
      else Append(s, AttemptId(a, n, CompletePhase), AttemptCompleted(a, n, output))
  }

  function FailActivity(s: RunState, a: ActivityId, n: nat, error: Note, retryable: bool, ambiguous: bool): Decided {
    var _ :- EnsureActive(s.projection);
    if a !in s.projection.activities then Err(ActivityNotFound)
    else
      var d := s.projection.activities[a].definition;
      if IsReserved(a, d) then
        var t :- Append(s, AttemptId(a, n, ReconcilePhase),
                        ReconciliationRequired(a, n, ReservedFailure(error)));
        Ok((t, MustReconcile(a)))
      else
        var t :- Append(s, AttemptId(a, n, FailPhase), AttemptFailed(a, n, error, retryable, ambiguous));
        if ambiguous && !RetryIsSafe(d, true) then
          var u :- Append(t, AttemptId(a, n, ReconcilePhase),
                          ReconciliationRequired(a, n, AmbiguousFailure(error)));
          Ok((u, MustReconcile(a)))
        else if retryable then DecideActivity(t, a)
        else Ok((t, PreviouslyFailed(a)))
  }

  function QuarantineUnstarted(s: RunState, a: ActivityId, reason: Note): Result<RunState, Error> {
    if a !in s.projection.activities then Err(ActivityNotFound)
    else
      var r := s.projection.activities[a];
      if !IsReserved(a, r.definition) || r.attempts != [] then Err(InvalidActivityTransition)
      else
        var _ :- EnsureActive(s.projection);
        Append(s, AttemptId(a, 1, OrphanPhase), ReconciliationRequired(a, 1, reason))
  }

  function ReconcileActivity(s: RunState, reconciliationId: string, a: ActivityId, resolution: Resolution)
    : Result<RunState, Error>
  {
    if !ValidIdentifier(reconciliationId) then Err(InvalidIdentifier)
    else if a !in s.projection.activities then Err(ActivityNotFound)
    else
      var r := s.projection.activities[a];
      if !ReconciliationOk(s.runId, s.projection.activities, a, r, resolution) then Err(InvalidEvent)
      else if r.attempts == [] then Err(InvalidActivityTransition)
      else
        var n := |r.attempts|;
        Append(s, ReconciledId(a, n, reconciliationId), ActivityReconciled(a, n, resolution))
  }

  function Checkpoint(s: RunState, key: CheckpointKey, caption: Note): Result<RunState, Error> {
    if key.HostCheckpoint? && !ValidIdentifier(key.key) then Err(InvalidIdentifier)
    else
      var _ :- EnsureNotReconciling(s.projection);
      Append(s, CheckpointEventId(key), CheckpointCommitted(key, Some(caption)))
  }

  /** complete_run, fail_run and the Cancel command, told apart by the event they commit. */
  function StopRun(s: RunState, id: EventId, kind: EventKind): Result<RunState, Error>
    requires kind.Complete? || kind.Fail? || kind.Cancel?
  {
    if kind.Cancel? && IdUsedFor(s.events, id, kind) then Ok(s)
    else if kind.Cancel? && IdUsed(s.events, id) then Err(DuplicateEventConflict)
    else
      var _ :- EnsureActive(s.projection);
      if !ReservedAuditsClosed(s.projection) then Err(InvalidEvent) else Append(s, id, kind)
  }
}

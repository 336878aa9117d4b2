/**
 The life of a run as its events drive it: which events a status admits, where they lead, and exactly when
 the control events of a host (pauses, approvals, leases, checkpoints, the end of the run) are accepted.
 */
module StatusMachine {
  import opened Wrappers
  import opened RunLog

  // ---------------------------------------------------------------- statuses

  /** What can still happen to a run in this status. */
  predicate Admits(status: RunStatus, kind: EventKind) {
    var lasting := kind.LeaseClaimed? || kind.LeaseRenewed? || kind.LeaseReleased? || kind.ApprovalResolved? || kind.ActivityReconciled?;
    var closing := kind.AttemptCompleted? || kind.AttemptFailed? || kind.AttemptCancelled? || kind.ReconciliationRequired?
                   || kind.CheckpointCommitted? || kind.Complete? || kind.Fail? || kind.Cancel?;
    match status
    case Active => !kind.RunStarted? && !kind.Resume?
    case Paused => lasting || closing || kind.Pause? || kind.Resume? || kind.ApprovalRequested?
    case ReconciliationPending => lasting || closing
    case _ => lasting
  }

  /** Where an event leads; `open` says whether some activity still has to be reconciled afterwards. */
  function Leads(status: RunStatus, kind: EventKind, open: bool): RunStatus {
    match kind
    case Pause(_) => Paused
    case ApprovalRequested(_, _) => Paused
    case Resume => Active
    case ReconciliationRequired(_, _, _) => ReconciliationPending
    case ActivityReconciled(_, _, _) => if Terminal(status) || open then status else Paused
    case Complete => RunCompleted
    case Fail(_) => RunFailed
    case Cancel(_) => RunCancelled
    case _ => status
  }

  /** Every event that is accepted is admitted by the status and leads where it should. */
  lemma StatusFollowsEvents(runId: string, p: Projection, kind: EventKind, sequence: nat)
    requires Apply(runId, p, kind, sequence).Ok?
    ensures var q := Apply(runId, p, kind, sequence).value;
            Admits(p.status, kind) && q.status == Leads(p.status, kind, HasPendingReconciliation(q))
  {
    hide CompletionOk, ReconciliationOk, ReservedScheduleOk, AttemptStartOk, HasTerminalMarker, IsReserved;
    hide HasRunningAttempt, ReservedAuditsClosed;
    if kind.ActivityReconciled? {
      ReconciledStatus(runId, p, kind, sequence);
    }
  }

  lemma ReconciledStatus(runId: string, p: Projection, kind: EventKind, sequence: nat)
    requires kind.ActivityReconciled? && Apply(runId, p, kind, sequence).Ok?
    ensures var q := Apply(runId, p, kind, sequence).value;
            q.status == Leads(p.status, kind, HasPendingReconciliation(q))
  {
    hide ReconciliationOk;
    var resolved := WithAttempt(p, kind.reconciled, kind.reconciledAttempt - 1,
                                Resolved(p.activities[kind.reconciled].attempts[kind.reconciledAttempt - 1], kind.resolution, sequence));
    var q := Apply(runId, p, kind, sequence).value;
    assert q == PauseIfReconciled(resolved) && q.activities == resolved.activities;
    assert HasPendingReconciliation(q) == HasPendingReconciliation(resolved);
  }

  // ---------------------------------------------------------------- when control events are accepted

  predicate Stopped(p: Projection) {
    p.status == RunCompleted || p.status == RunFailed || p.status == RunCancelled
  }

  predicate SomePendingApproval(p: Projection) {
    exists id :: id in p.approvals && p.approvals[id].status == Pending
  }

  lemma PauseAndResumeExactly(p: Projection, reason: Note)
    ensures ApplyControl(p, Pause(reason)).Ok? <==> p.status == Active || p.status == Paused
    ensures ApplyControl(p, Pause(reason)).Ok? ==>
              ApplyControl(p, Pause(reason)).value == p.(status := Paused, pauseReason := Some(reason))
    ensures ApplyControl(p, Resume).Ok? <==>
              && p.status == Paused && !SomePendingApproval(p)
              && forall a :: a in p.activities ==> !LatestIs(p.activities[a], NeedsReconciliation)
    ensures ApplyControl(p, Resume).Ok? ==> ApplyControl(p, Resume).value == p.(status := Active, pauseReason := None)
  {
  }

  /** A run completes if and only if nothing is open: no audit, attempt, approval or reconciliation; it may fail or be cancelled sooner. */
  lemma StopsExactly(p: Projection, kind: EventKind)
    requires kind.Complete? || kind.Fail? || kind.Cancel?
    ensures ApplyControl(p, kind).Ok? <==>
              && !Stopped(p)
              && (forall a :: a in p.activities && IsReserved(a, p.activities[a].definition) ==>
                    a.step != LegacyRunStoppedAudit && CompletedOutput(p.activities[a]).Some?)
              && (forall a, i :: a in p.activities && 0 <= i < |p.activities[a].attempts| ==>
                    p.activities[a].attempts[i].status != Running)
              && (kind.Complete? ==>
                    && !SomePendingApproval(p)
                    && forall a :: a in p.activities ==> !LatestIs(p.activities[a], NeedsReconciliation))
    ensures ApplyControl(p, kind).Ok? ==>
              ApplyControl(p, kind).value.(status := p.status, pauseReason := p.pauseReason) == p
  {
    hide CompletedOutput, IsReserved, LatestIs;
  }

  /** A typed approval is answered within its window, or denied for its time-out once the window is over. */
  predicate AnswerFits(approval: Approval, approved: bool, clock: Option<(nat, bool)>) {
    match approval.window
    case None => true
    case Some(window) =>
      match clock
      case None => false
      case Some((at, timedOut)) =>
        if timedOut then !approved && at >= window.0 && at >= window.1 else window.0 <= at < window.1
  }

  lemma ApprovalsExactly(p: Projection, id: string, window: Option<(nat, nat)>, approved: bool, clock: Option<(nat, bool)>)
    ensures var r := ApplyControl(p, ApprovalRequested(id, window));
            && (r.Ok? <==> (p.status == Active || p.status == Paused) && id !in p.approvals
                           && (window.Some? ==> window.value.0 < window.value.1))
            && (r.Ok? ==> r.value == p.(approvals := p.approvals[id := Approval(window, Pending)], status := Paused,
                                        pauseReason := Some(ApprovalNeeded(id))))
    ensures var r := ApplyControl(p, ApprovalResolved(id, approved, clock));
            && (r.Ok? <==> id in p.approvals && p.approvals[id].status == Pending && AnswerFits(p.approvals[id], approved, clock))
            && (r.Ok? ==> r.value == p.(approvals := p.approvals[id := Approval(p.approvals[id].window, if approved then Approved else Rejected)]))
  {
  }

  /** Only the holder renews or releases, while its lease runs, not before its last heartbeat; renewing extends. */
  lemma RenewalsExactly(p: Projection, owner: string, lease: string, at: nat, expires: nat)
    requires ValidIdentifier(owner) && ValidIdentifier(lease)
    ensures var r := ApplyControl(p, LeaseRenewed(owner, lease, at, expires));
            && (r.Ok? <==>
                  && p.lease.Some? && p.lease.value.ownerId == owner && p.lease.value.leaseId == lease
                  && p.lease.value.heartbeatAt <= at < p.lease.value.expiresAt < expires <= at + MAX_WORKER_LEASE_MS)
            && (r.Ok? ==> r.value == p.(lease := Some(p.lease.value.(heartbeatAt := at, expiresAt := expires))))
    ensures var r := ApplyControl(p, LeaseReleased(owner, lease, at));
            && (r.Ok? <==>
                  && p.lease.Some? && p.lease.value.ownerId == owner && p.lease.value.leaseId == lease
                  && p.lease.value.heartbeatAt <= at < p.lease.value.expiresAt)
            && (r.Ok? ==> r.value == p.(lease := None))
  {
  }

  lemma CheckpointsExactly(p: Projection, key: CheckpointKey, caption: Option<Note>, value: string)
    ensures var r := ApplyControl(p, CheckpointCommitted(key, caption));
            && (r.Ok? <==> !Stopped(p) && key !in p.checkpoints)
            && (r.Ok? ==> r.value == p.(checkpoints := p.checkpoints + {key}))
    ensures var r := ApplyControl(p, StateReplaced(value));
            && (r.Ok? <==> p.status == Active)
            && (r.Ok? ==> r.value == p.(appState := value))
  {
  }
}

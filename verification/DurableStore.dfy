/**
 The in-memory durable store (durable_store.rs): a compare-and-swap over append-only run logs, with
 worker-lease fencing and a guarded path for typed approvals, all decided at one clock reading.
 */
module DurableStore {
  import opened Wrappers
  import opened RunLog

  /** Proof that a worker claimed and bound a lease. */
  datatype Authority = Authority(ownerId: string, leaseId: string)

  datatype StoreError =
    | NotFound
    | AlreadyExists
    | RevisionConflict(expected: nat, actual: nat)
    | WorkerLeaseRequired(holder: string)
    | WorkerLeaseConflict(claimant: string)
    | InvalidWorkerLeaseClaim
    | WorkerLeaseRecoveryRequired
    | ApprovalGuardRequired(approvalId: string)
    | ApprovalExpired(approvalId: string, observedAt: nat)
    | InvalidReplacement
    | Io

  type Check = Result<(), StoreError>

  // ---------------------------------------------------------------- the lease fence

  function ActiveLease(s: RunState, now: nat): Option<Lease> {
    if s.projection.lease.Some? && s.projection.lease.value.expiresAt > now then s.projection.lease else None
  }

  predicate Holds(lease: Lease, authority: Authority) {
    lease.ownerId == authority.ownerId && lease.leaseId == authority.leaseId
  }

  /** The events a replacement adds to the stored log; none when it is shorter. */
  function Appended(current: RunState, replacement: RunState): seq<Event> {
    if |replacement.events| <= |current.events| then [] else replacement.events[|current.events|..]
  }

  predicate AppendsLeaseClaim(current: RunState, replacement: RunState) {
    exists i :: 0 <= i < |Appended(current, replacement)| && Appended(current, replacement)[i].kind.LeaseClaimed?
  }

  /** A single event that claims a bounded lease valid at this very moment. */
  predicate IsAtomicLeaseClaim(current: RunState, replacement: RunState, now: nat) {
    && |replacement.events| == |current.events| + 1
    && replacement.events[|current.events|].kind.LeaseClaimed?
    && var claim := replacement.events[|current.events|].kind;
    && replacement.projection.lease.Some?
    && var lease := replacement.projection.lease.value;
    && claim.claimedAt <= now < claim.claimExpiresAt
    && LeaseWindowOk(claim.claimedAt, claim.claimExpiresAt)
    && lease.ownerId == claim.ownerId && lease.leaseId == claim.leaseId
    && lease.acquiredAt == claim.claimedAt && lease.expiresAt == claim.claimExpiresAt
  }

  function ValidateFence(current: RunState, replacement: RunState, authority: Option<Authority>, now: nat): Check {
    match (ActiveLease(current, now), authority)
    case (Some(lease), None) => Err(WorkerLeaseRequired(lease.ownerId))
    case (Some(lease), Some(auth)) => if Holds(lease, auth) then Ok(()) else Err(WorkerLeaseConflict(auth.ownerId))
    case (None, Some(auth)) => Err(WorkerLeaseConflict(auth.ownerId))
    case (None, None) =>
      if current.projection.lease.None? then
        if !AppendsLeaseClaim(current, replacement) || IsAtomicLeaseClaim(current, replacement, now) then Ok(())
        else Err(InvalidWorkerLeaseClaim)
      else if IsAtomicLeaseClaim(current, replacement, now) then Ok(())
      else Err(WorkerLeaseRecoveryRequired)
  }

  function ValidateAppendOnly(current: RunState, replacement: RunState): Check {
    if current.runId != replacement.runId || current.sessionId != replacement.sessionId then Err(InvalidReplacement)
    else if !(current.events <= replacement.events) then Err(InvalidReplacement)
    else if |replacement.events| == |current.events| && replacement != current then Err(InvalidReplacement)
    else Ok(())
  }

  // ---------------------------------------------------------------- approvals

  /** Off the guarded path, only approvals that are stored and untyped may be resolved. */
  function RejectResolutions(current: RunState, appended: seq<Event>): Check {
    if appended == [] then Ok(())
    else if !appended[0].kind.ApprovalResolved? then RejectResolutions(current, appended[1..])
    else
      var id := appended[0].kind.resolvedId;
      if id !in current.projection.approvals then Err(InvalidReplacement)
      else if current.projection.approvals[id].window.Some? then Err(ApprovalGuardRequired(id))
      else RejectResolutions(current, appended[1..])
  }

  datatype Scan = Scan(resolutions: nat, expired: bool)

  function ScanOne(current: RunState, target: string, now: nat, scan: Scan, kind: EventKind): Result<Scan, StoreError> {
    if !kind.ApprovalResolved? then Ok(scan)
    else if kind.resolvedId !in current.projection.approvals then Err(InvalidReplacement)
    else
      var persisted := current.projection.approvals[kind.resolvedId];
      var counted := if kind.resolvedId == target then scan.(resolutions := scan.resolutions + 1) else scan;
      if persisted.status != Pending then Err(InvalidReplacement)
      else if !kind.approved then Ok(counted)
      else if kind.resolvedId != target || persisted.window.None? then Err(InvalidReplacement)
      else Ok(if now >= persisted.window.value.1 then counted.(expired := true) else counted)
  }

  function ScanResolutions(current: RunState, target: string, now: nat, scan: Scan, appended: seq<Event>)
    : Result<Scan, StoreError>
    decreases |appended|
  {
    if appended == [] then Ok(scan)
    else
      var next :- ScanOne(current, target, now, scan, appended[0].kind);
      ScanResolutions(current, target, now, next, appended[1..])
  }

  predicate ResolvedIn(s: RunState, id: string) {
    id in s.projection.approvals && s.projection.approvals[id].status != Pending
  }

  function ValidateApproval(current: RunState, replacement: RunState, target: string, now: nat): Check {
    if target !in current.projection.approvals then Err(InvalidReplacement)
    else if current.projection.approvals[target].status != Pending then Err(InvalidReplacement)
    else if current.projection.approvals[target].window.None? then Err(InvalidReplacement)
    else
      var scan :- ScanResolutions(current, target, now, Scan(0, false), Appended(current, replacement));
      if scan.resolutions != 1 || !ResolvedIn(replacement, target) then Err(InvalidReplacement)
      else if scan.expired then Err(ApprovalExpired(target, now))
      else Ok(())
  }

  // ---------------------------------------------------------------- the compare-and-swap

  /** Whether the store accepts `replacement` for `current` at `now`. */
  function Validate(
    current: RunState, expected: nat, replacement: RunState, authority: Option<Authority>, approval: Option<string>,
    now: nat): Check
  {
    if LastSequence(current) != expected then Err(RevisionConflict(expected, LastSequence(current)))
    else
      var _ :- ValidateFence(current, replacement, authority, now);
      var _ :- ValidateAppendOnly(current, replacement);
      match approval
      case Some(id) => ValidateApproval(current, replacement, id, now)
      case None => RejectResolutions(current, Appended(current, replacement))
  }

  type Runs = map<string, RunState>

  function Swap(
    runs: Runs, expected: nat, replacement: RunState, authority: Option<Authority>, approval: Option<string>, now: nat)
    : Result<Runs, StoreError>
  {
    if replacement.runId !in runs then Err(NotFound)
    else
      var _ :- Validate(runs[replacement.runId], expected, replacement, authority, approval, now);
      Ok(runs[replacement.runId := replacement])
  }

  // ---------------------------------------------------------------- the store object

  class InMemoryDurableStore {
    var runs: Runs

    constructor ()
      ensures runs == map[]
    {
      runs := map[];
    }

    method Create(state: RunState) returns (r: Check)
      modifies this
      ensures state.runId in old(runs) ==> r == Err(AlreadyExists) && runs == old(runs)
      ensures state.runId !in old(runs) ==> r == Ok(()) && runs == old(runs)[state.runId := state]
    {
      if state.runId in runs {
        return Err(AlreadyExists);
      }
      runs := runs[state.runId := state];
      return Ok(());
    }

    method Load(runId: string) returns (r: Result<RunState, StoreError>)
      ensures r == if runId in runs then Ok(runs[runId]) else Err(NotFound)
    {
      if runId in runs {
        return Ok(runs[runId]);
      }
      return Err(NotFound);
    }

    /** `now` is the one clock reading taken while the store is locked. */
    method CompareAndSwap(
      expected: nat, replacement: RunState, authority: Option<Authority>, approval: Option<string>, now: nat)
      returns (r: Check)
      modifies this
      ensures var swapped := Swap(old(runs), expected, replacement, authority, approval, now);
              && (swapped.Ok? ==> r == Ok(()) && runs == swapped.value)
              && (swapped.Err? ==> r == Err(swapped.error) && runs == old(runs))
    {
      if replacement.runId !in runs {
        return Err(NotFound);
      }
      var current := runs[replacement.runId];
      var actual := LastSequence(current);
      if actual != expected {
        return Err(RevisionConflict(expected, actual));
      }
      var fence := ValidateFence(current, replacement, authority, now);
      if fence.Err? { return fence; }
      var append := ValidateAppendOnly(current, replacement);
      if append.Err? { return append; }
      var approvals;
      match approval {
        case Some(id) => approvals := CheckApprovalResolution(current, replacement, id, now);
        case None => approvals := CheckNoGuardedResolutions(current, Appended(current, replacement));
      }
      if approvals.Err? { return approvals; }
      runs := runs[replacement.runId := replacement];
      return Ok(());
    }
  }

  method CheckNoGuardedResolutions(current: RunState, appended: seq<Event>) returns (r: Check)
    ensures r == RejectResolutions(current, appended)
  {
    var i := 0;
    while i < |appended|
      invariant 0 <= i <= |appended|
      invariant RejectResolutions(current, appended[i..]) == RejectResolutions(current, appended)
    {
      assert appended[i..][1..] == appended[i + 1..];
      var kind := appended[i].kind;
      if kind.ApprovalResolved? {
        if kind.resolvedId !in current.projection.approvals {
          return Err(InvalidReplacement);
        }
        if current.projection.approvals[kind.resolvedId].window.Some? {
          return Err(ApprovalGuardRequired(kind.resolvedId));
        }
      }
      i := i + 1;
    }
    return Ok(());
  }

  method CheckApprovalResolution(current: RunState, replacement: RunState, target: string, now: nat) returns (r: Check)
    ensures r == ValidateApproval(current, replacement, target, now)
  {
    if target !in current.projection.approvals {
      return Err(InvalidReplacement);
    }
    var approval := current.projection.approvals[target];
    if approval.status != Pending || approval.window.None? {
      return Err(InvalidReplacement);
    }
    var appended := Appended(current, replacement);
    var resolutions, expired := 0, false;
    var i := 0;
    while i < |appended|
      invariant 0 <= i <= |appended|
      invariant ScanResolutions(current, target, now, Scan(resolutions, expired), appended[i..])
             == ScanResolutions(current, target, now, Scan(0, false), appended)
    {
      assert appended[i..][1..] == appended[i + 1..];
      var kind := appended[i].kind;
      if kind.ApprovalResolved? {
        if kind.resolvedId !in current.projection.approvals {
          return Err(InvalidReplacement);
        }
        var persisted := current.projection.approvals[kind.resolvedId];
        if persisted.status != Pending {
          return Err(InvalidReplacement);
        }
        if kind.resolvedId == target {
          resolutions := resolutions + 1;
        }
        if kind.approved {
          if kind.resolvedId != target || persisted.window.None? {
            return Err(InvalidReplacement);
          }
          if now >= persisted.window.value.1 {
            expired := true;
          }
        }
      }
      i := i + 1;
    }
    if resolutions != 1 || !ResolvedIn(replacement, target) {
      return Err(InvalidReplacement);
    }
    if expired {
      return Err(ApprovalExpired(target, now));
    }
    return Ok(());
  }
}

/**
 The durable approver (governance/mod.rs): it shares its driver's state, store, poison flag and lease, and
 commits approval requests and their resolutions between the driver's own transitions.
 */
module Approver {
  import opened Wrappers
  import opened RunLog
  import opened DurableStore
  import opened Driver

  /** `t` goes on from `s` by control events only, none under an identity that belongs to an attempt. */
  predicate ControlOnly(s: RunState, t: RunState) {
    forall i :: |s.events| <= i < |t.events| ==> !ActivityKind(t.events[i].kind) && !t.events[i].id.AttemptId?
  }

  /** The store certainly wrote nothing: it refused this very approval because it had expired. */
  predicate DefiniteExpiry(local: RunState, candidate: RunState, approval: Option<string>, error: StoreError) {
    && error.ApprovalExpired? && approval == Some(error.approvalId)
    && error.approvalId in local.projection.approvals && error.approvalId in candidate.projection.approvals
    && var window := local.projection.approvals[error.approvalId].window;
    && window.Some? && error.observedAt >= window.value.1
    && candidate.projection.approvals[error.approvalId].status == Approved
  }

  /** What the shared driver becomes once the store has answered. */
  function SettleApproval(core: Core, candidate: RunState, approval: Option<string>, swapped: Check): Core {
    if swapped.Ok? then core.(local := candidate)
    else if DefiniteExpiry(core.local, candidate, approval, swapped.error) then core
    else core.(poisoned := true)
  }

  /** The shared driver, the store and the answer after committing `candidate`, naming `approval` if it resolves one. */
  function CommitApproval(core: Core, runs: Runs, candidate: RunState, approval: Option<string>, now: nat)
    : (Core, Runs, Check)
  {
    match Swap(runs, LastSequence(core.local), candidate, core.authority, approval, now)
    case Ok(runs') => (SettleApproval(core, candidate, approval, Ok(())), runs', Ok(()))
    case Err(error) => (SettleApproval(core, candidate, approval, Err(error)), runs, Err(error))
  }

  class DurableToolApprover {
    const driver: DurableRunDriver

    constructor (driver: DurableRunDriver)
      ensures this.driver == driver
    {
      this.driver := driver;
    }

    /** Whether a request may be made now; a state that differs from the store poisons the driver. */
    method VerifyCurrent() returns (ok: bool)
      modifies driver
      ensures ok <==> !old(driver.poisoned) && LoadFrom(driver.store.runs, driver.state.runId) == Ok(old(driver.state))
      ensures driver.Value() == old(driver.Value()).(poisoned := !ok)
      ensures driver.invocationActive == old(driver.invocationActive)
    {
      if driver.poisoned {
        return false;
      }
      var loaded := driver.store.Load(driver.state.runId);
      ok := loaded == Ok(driver.state);
      if !ok {
        driver.poisoned := true;
      }
    }

    method CommitCandidate(candidate: RunState, approval: Option<string>, now: nat) returns (r: Check)
      modifies driver, driver.store
      ensures (driver.Value(), driver.store.runs, r)
           == CommitApproval(old(driver.Value()), old(driver.store.runs), candidate, approval, now)
      ensures driver.invocationActive == old(driver.invocationActive)
    {
      hide Validate;
      r := driver.store.CompareAndSwap(LastSequence(driver.state), candidate, driver.workerLease, approval, now);
      if r.Err? {
        if !DefiniteExpiry(driver.state, candidate, approval, r.error) {
          driver.poisoned := true;
        }
        return;
      }
      driver.state := candidate;
    }
  }

  /**
   The store's expiry refusal is always a definite one: a driver whose state is the stored one is never
   poisoned by it, so the approver can go on to commit the denial.
   */
  lemma ExpiryDoesNotPoison(core: Core, runs: Runs, candidate: RunState, approval: Option<string>, now: nat)
    requires LoadFrom(runs, core.local.runId) == Ok(core.local) && candidate.runId == core.local.runId
    requires approval.Some? && approval.value in candidate.projection.approvals
    requires candidate.projection.approvals[approval.value].status == Approved
    requires CommitApproval(core, runs, candidate, approval, now).2.Err?
    requires CommitApproval(core, runs, candidate, approval, now).2.error.ApprovalExpired?
    ensures CommitApproval(core, runs, candidate, approval, now).0 == core
  {
    hide ValidateFence, ValidateAppendOnly;
    var appended := Appended(core.local, candidate);
    var scan := ScanResolutions(core.local, approval.value, now, Scan(0, false), appended);
    if scan.Err? {
      ScanNeverReportsExpiry(core.local, approval.value, now, Scan(0, false), appended);
    } else if scan.value.expired {
      ExpiredMeansPastWindow(core.local, approval.value, now, Scan(0, false), appended);
    }
    FenceNeverReportsExpiry(core.local, candidate, core.authority, now);
  }

  lemma FenceNeverReportsExpiry(current: RunState, replacement: RunState, authority: Option<Authority>, now: nat)
    ensures var fence := ValidateFence(current, replacement, authority, now); fence.Err? ==> !fence.error.ApprovalExpired?
    ensures var append := ValidateAppendOnly(current, replacement); append.Err? ==> !append.error.ApprovalExpired?
  {
  }

  lemma {:induction false} ScanNeverReportsExpiry(current: RunState, target: string, now: nat, scan: Scan, appended: seq<Event>)
    requires ScanResolutions(current, target, now, scan, appended).Err?
    ensures !ScanResolutions(current, target, now, scan, appended).error.ApprovalExpired?
    decreases |appended|
  {
    if appended != [] && ScanOne(current, target, now, scan, appended[0].kind).Ok? {
      ScanNeverReportsExpiry(current, target, now, ScanOne(current, target, now, scan, appended[0].kind).value, appended[1..]);
    }
  }

  lemma {:induction false} ExpiredMeansPastWindow(current: RunState, target: string, now: nat, scan: Scan, appended: seq<Event>)
    requires ScanResolutions(current, target, now, scan, appended).Ok?
    requires !scan.expired && ScanResolutions(current, target, now, scan, appended).value.expired
    ensures target in current.projection.approvals && current.projection.approvals[target].window.Some?
            && now >= current.projection.approvals[target].window.value.1
    decreases |appended|
  {
    if appended != [] {
      var next := ScanOne(current, target, now, scan, appended[0].kind).value;
      if !next.expired {
        ExpiredMeansPastWindow(current, target, now, next, appended[1..]);
      }
    }
  }
}

/**
 The durable run driver (durable_runtime.rs): a local copy of one run, kept in step with the store by
 load, compare, mutate a copy, compare-and-swap. Any failure poisons the driver for good.
 */
module Driver {
  import opened Wrappers
  import opened RunLog
  import opened RunCommands
  import opened Disposition
  import opened DurableStore

  datatype Failure =
    | Poisoned
    | StateMismatch
    | UnsupportedMode
    | StoreFailure(store: StoreError)
    | LeaseRequired(holder: string)
    | WorkerLeaseLost(claimant: string)
    | MutationFailure(mutation: DriverError)
    | CompletionTooLarge(actual: nat, limit: nat)
    | AlreadyInvoked

  /** What one driver carries between calls. */
  datatype Core = Core(local: RunState, poisoned: bool, authority: Option<Authority>)

  function EnsureAuthority(local: RunState, authority: Option<Authority>, now: nat): Result<(), Failure> {
    match (local.projection.lease, authority)
    case (None, None) => Ok(())
    case (Some(lease), None) => Err(LeaseRequired(lease.ownerId))
    case (None, Some(auth)) => Err(WorkerLeaseLost(auth.ownerId))
    case (Some(lease), Some(auth)) =>
      if Holds(lease, auth) && lease.expiresAt > now then Ok(()) else Err(WorkerLeaseLost(auth.ownerId))
  }

  /** The first half of a transition, up to the moment the store is asked to swap. */
  datatype Prepared =
    | Declined(core: Core, failure: Failure)
    | NoChange(outcome: Outcome)
    | Candidate(candidate: RunState, outcome: Outcome)

  function Prepare(core: Core, loaded: Result<RunState, StoreError>, requireAuthority: bool, c: Command, now: nat): Prepared {
    if core.poisoned then Declined(core, Poisoned)
    else if loaded.Err? then Declined(core.(poisoned := true), StoreFailure(loaded.error))
    else if loaded.value != core.local then Declined(core.(poisoned := true), StateMismatch)
    else
      var authorised := if requireAuthority then EnsureAuthority(core.local, core.authority, now) else Ok(());
      if authorised.Err? then Declined(core, authorised.error)
      else
        var mutated := Mutate(core.local, c);
        if mutated.Err? then Declined(core, MutationFailure(mutated.error))
        else if mutated.value.0 == core.local then NoChange(mutated.value.1)
        else Candidate(mutated.value.0, mutated.value.1)
  }

  function LoadFrom(runs: Runs, runId: string): Result<RunState, StoreError> {
    if runId in runs then Ok(runs[runId]) else Err(NotFound)
  }

  /** The second half: what the driver becomes once the swap has reported its result. */
  function Settle(core: Core, candidate: RunState, swapped: Check): Core {
    if swapped.Ok? then core.(local := candidate) else core.(poisoned := true)
  }

  /** Both halves with no other client of the store in between. */
  function Transition(core: Core, runs: Runs, requireAuthority: bool, c: Command, now: nat)
    : (Core, Runs, Result<Outcome, Failure>)
  {
    match Prepare(core, LoadFrom(runs, core.local.runId), requireAuthority, c, now)
    case Declined(core', failure) => (core', runs, Err(failure))
    case NoChange(outcome) => (core, runs, Ok(outcome))
    case Candidate(candidate, outcome) =>
      match Swap(runs, LastSequence(core.local), candidate, core.authority, None, now)
      case Ok(runs') => (Settle(core, candidate, Ok(())), runs', Ok(outcome))
      case Err(error) => (Settle(core, candidate, Err(error)), runs, Err(StoreFailure(error)))
  }

  /**
   Finalizing a run that is not active changes neither the driver nor the store, whatever its authority.
   It succeeds if and only if the driver may act and the run already stopped as the receipt says; a
   conflicting terminal, paused or reconcile-required status is refused.
   */
  lemma FinalizeOfInactiveRun(core: Core, runs: Runs, receipt: Receipt, now: nat)
    requires !core.poisoned && LoadFrom(runs, core.local.runId) == Ok(core.local)
    requires core.local.projection.status != Active
    ensures var (core', runs', result) := Transition(core, runs, true, Finalize(receipt), now);
            && core' == core && runs' == runs
            && (result.Ok? <==>
                  && EnsureAuthority(core.local, core.authority, now).Ok?
                  && core.local.projection.status == ReceiptStatus(receipt))
  {
    hide StopAs, Swap;
  }

  class DurableRunDriver {
    const store: InMemoryDurableStore
    const maxCompletionBytes: nat
    var state: RunState
    var poisoned: bool
    var invocationActive: bool
    var workerLease: Option<Authority>

    function Value(): Core
      reads this
    {
      Core(state, poisoned, workerLease)
    }

    /** Attach a driver to a state already known to be the stored one. */
    constructor (store: InMemoryDurableStore, state: RunState, maxCompletionBytes: nat)
      ensures this.store == store && this.maxCompletionBytes == maxCompletionBytes
      ensures Value() == Core(state, false, None) && !invocationActive
    {
      this.store, this.maxCompletionBytes := store, maxCompletionBytes;
      this.state, poisoned, invocationActive, workerLease := state, false, false, None;
    }

    /**
     One transition, with no other client between its load and its swap. The interleaved form runs
     the same two halves as separate steps.
     */
    method TransitionInner(requireAuthority: bool, c: Command, now: nat) returns (r: Result<Outcome, Failure>)
      modifies this, store
      ensures invocationActive == old(invocationActive)
      ensures (Value(), store.runs, r) == Transition(old(Value()), old(store.runs), requireAuthority, c, now)
    {
      hide Prepare, Swap, LastSequence, LoadFrom;
      var prepared := PrepareCandidate(requireAuthority, c, now);
      match prepared {
        case Declined(_, failure) => return Err(failure);
        case NoChange(outcome) => return Ok(outcome);
        case Candidate(candidate, outcome) =>
          var swapped := Publish(candidate, now);
          if swapped.Err? {
            return Err(StoreFailure(swapped.error));
          }
          return Ok(outcome);
      }
    }

    /** Load, compare, check authority and mutate a copy; a store failure or a difference poisons the driver. */
    method PrepareCandidate(requireAuthority: bool, c: Command, now: nat) returns (p: Prepared)
      modifies this
      ensures invocationActive == old(invocationActive)
      ensures p == Prepare(old(Value()), LoadFrom(store.runs, old(state).runId), requireAuthority, c, now)
      ensures Value() == if p.Declined? then p.core else old(Value())
    {
      hide Mutate, EnsureAuthority;
      if poisoned {
        return Declined(Value(), Poisoned);
      }
      var loaded := store.Load(state.runId);
      if loaded.Err? {
        poisoned := true;
        return Declined(Value(), StoreFailure(loaded.error));
      }
      if loaded.value != state {
        poisoned := true;
        return Declined(Value(), StateMismatch);
      }
      if requireAuthority {
        var authorised := EnsureAuthority(state, workerLease, now);
        if authorised.Err? {
          return Declined(Value(), authorised.error);
        }
      }
      var mutated := Mutate(state, c);
      if mutated.Err? {
        return Declined(Value(), MutationFailure(mutated.error));
      }
      if mutated.value.0 == state {
        return NoChange(mutated.value.1);
      }
      return Candidate(mutated.value.0, mutated.value.1);
    }

    /** Swap the candidate in and adopt it, or poison the driver. */
    method Publish(candidate: RunState, now: nat) returns (r: Check)
      modifies this, store
      ensures invocationActive == old(invocationActive)
      ensures var swapped := Swap(old(store.runs), LastSequence(old(state)), candidate, old(workerLease), None, now);
              && r == (if swapped.Ok? then Ok(()) else Err(swapped.error))
              && Value() == Settle(old(Value()), candidate, r)
              && store.runs == if swapped.Ok? then swapped.value else old(store.runs)
    {
      hide Swap, LastSequence;
      r := store.CompareAndSwap(LastSequence(state), candidate, workerLease, None, now);
      if r.Err? {
        poisoned := true;
      } else {
        state := candidate;
      }
    }

    /** A result over the storage limit is never committed; its attempt is recorded as ambiguous instead. */
    method CompleteActivity(a: ActivityId, attempt: nat, output: RunLog.Value, bytes: nat, now: nat)
      returns (r: Result<Outcome, Failure>)
      modifies this, store
      ensures bytes > maxCompletionBytes ==>
                var (core, runs, result) := Transition(old(Value()), old(store.runs), true,
                                                       CommitFailure(a, attempt, OversizedResult, false, true), now);
                && Value() == core && store.runs == runs
                && r == if result.Ok? then Err(CompletionTooLarge(bytes, maxCompletionBytes)) else result
      ensures bytes <= maxCompletionBytes ==>
                (Value(), store.runs, r)
                == Transition(old(Value()), old(store.runs), true, CommitCompletion(a, attempt, output), now)
    {
      if bytes > maxCompletionBytes {
        r := TransitionInner(true, CommitFailure(a, attempt, OversizedResult, false, true), now);
        if r.Ok? {
          r := Err(CompletionTooLarge(bytes, maxCompletionBytes));
        }
        return;
      }
      r := TransitionInner(true, CommitCompletion(a, attempt, output), now);
    }

    /** Adopt a claimed lease; refused unless the local state shows it held and unexpired. */
    method BindWorkerLease(owner: string, lease: string, now: nat) returns (r: Result<(), Failure>)
      modifies this
      ensures state == old(state) && poisoned == old(poisoned) && invocationActive == old(invocationActive)
      ensures r.Ok? <==> old(ActiveLease(state, now)).Some? && Holds(old(ActiveLease(state, now)).value, Authority(owner, lease))
      ensures r.Err? ==> r.error == WorkerLeaseLost(owner)
      ensures workerLease == if r.Ok? then Some(Authority(owner, lease)) else old(workerLease)
    {
      var held := state.projection.lease;
      if held.None? || !Holds(held.value, Authority(owner, lease)) || held.value.expiresAt <= now {
        return Err(WorkerLeaseLost(owner));
      }
      workerLease := Some(Authority(owner, lease));
      return Ok(());
    }

    /** One runtime stream at a time per shared driver. */
    method ClaimInvocation() returns (r: Result<(), Failure>)
      modifies this
      ensures r.Ok? <==> !old(invocationActive)
      ensures r.Err? ==> r.error == AlreadyInvoked
      ensures invocationActive && Value() == old(Value())
    {
      if invocationActive {
        return Err(AlreadyInvoked);
      }
      invocationActive := true;
      return Ok(());
    }

    method DropInvocationClaim()
      modifies this
      ensures !invocationActive && Value() == old(Value())
    {
      invocationActive := false;
    }
  }

  /** Attach to a run: create it, or adopt it only when the stored state is exactly the caller's. */
  method Attach(store: InMemoryDurableStore, state: RunState, maxCompletionBytes: nat)
    returns (r: Result<DurableRunDriver, Failure>)
    modifies store
    ensures r.Ok? ==> store.runs == old(store.runs)[state.runId := state]
    ensures r.Ok? ==> state.mode == Sync && fresh(r.value) && r.value.store == store
    ensures r.Ok? ==> r.value.Value() == Core(state, false, None)
    ensures r.Err? ==> store.runs == old(store.runs)
    ensures r.Err? ==> r.error == if state.mode != Sync then UnsupportedMode else StateMismatch
    ensures r.Ok? <==> state.mode == Sync && (state.runId in old(store.runs) ==> old(store.runs)[state.runId] == state)
  {
    if state.mode != Sync {
      return Err(UnsupportedMode);
    }
    var stored := store.Load(state.runId);
    if stored.Err? {
      var _ := store.Create(state);
    } else if stored.value != state {
      return Err(StateMismatch);
    }
    var driver := new DurableRunDriver(store, state, maxCompletionBytes);
    return Ok(driver);
  }
}

/**
 Worker-lease fencing over whole behaviours: while a lease is active only its holder writes, a lease
 is taken over only by a bounded claim once it lapsed, and a lapsed holder never writes again.
 */
module Fencing {
  import opened Wrappers
  import opened RunLog
  import opened RunInvariants
  import opened DurableStore
  import opened Driver
  import opened Approver
  import opened Coordination

  /** A step that writes through a driver's state is that of a driver that is there. */
  predicate Acts(w: World, step: Action) {
    step.Swapped? || step.Govern? ==> step.agent in w.agents
  }

  /** The authority a step presents when it writes to the store. */
  function Presents(w: World, step: Action): Option<Authority>
    requires Acts(w, step)
  {
    match step
    case Swapped(agent, _) => w.agents[agent].core.authority
    case Govern(agent, _, _, _) => w.agents[agent].core.authority
    case ForeignSwap(_, _, authority, _) => authority
    case _ => None
  }

  /** The approval a step names when it asks for the guarded swap. */
  function Names(step: Action): Option<string> {
    match step
    case Govern(_, _, approval, _) => approval
    case ForeignSwap(_, _, _, approval) => approval
    case _ => None
  }

  ghost predicate Writes(w: World, w': World, id: string) {
    id in w.runs && id in w'.runs && w'.runs[id] != w.runs[id]
  }

  predicate ActiveFor(s: RunState, now: nat, authority: Authority) {
    ActiveLease(s, now).Some? && Holds(ActiveLease(s, now).value, authority)
  }

  // ---------------------------------------------------------------- one write

  /** A change to a stored run is one accepted swap, presenting the step's authority. */
  lemma WriteIsAccepted(w: World, step: Action, w': World, id: string) returns (expected: nat)
    requires Invariant(w) && Next(w, step, w') && Writes(w, w', id)
    ensures step.Swapped? || step.Govern? || step.ForeignSwap?
    ensures Acts(w, step)
    ensures Validate(w.runs[id], expected, w'.runs[id], Presents(w, step), Names(step), w.clock).Ok?
    ensures step.ForeignSwap? ==> step.replacement == w'.runs[id]
    ensures step.Govern? ==> step.candidate == w'.runs[id]
    ensures Valid(w'.runs[id]) && Extends(w'.runs[id], w.runs[id])
  {
    hide Validate, Valid, Prepare, ControlOnly, DefiniteExpiry;
    NextKeepsInvariant(w, step, w');
    expected := 0;
    if step.Swapped? {
      expected := LastSequence(w.agents[step.agent].core.local);
      AcceptedSwapIsExact(w, step.agent);
    } else if step.Govern? {
      expected := LastSequence(w.agents[step.agent].core.local);
      AcceptedApprovalIsExact(w, step);
    } else if step.ForeignSwap? {
      expected := step.expected;
    }
  }

  /** Every accepted write while a lease is active carries that lease's owner and token. */
  lemma ActiveLeaseFencesWrites(worlds: seq<World>, steps: seq<Action>, i: nat, id: string)
    requires Behaviour(worlds, steps) && i < |steps| && Writes(worlds[i], worlds[i + 1], id)
    requires ActiveLease(worlds[i].runs[id], worlds[i].clock).Some?
    ensures Acts(worlds[i], steps[i])
    ensures var lease := ActiveLease(worlds[i].runs[id], worlds[i].clock).value;
            Presents(worlds[i], steps[i]) == Some(Authority(lease.ownerId, lease.leaseId))
  {
    hide Next, Swap, Prepare, Valid, RejectResolutions, ValidateApproval;
    InvariantHolds(worlds, steps, i);
    var _ := WriteIsAccepted(worlds[i], steps[i], worlds[i + 1], id);
  }

  /** One event: a claim, valid at the moment of the swap, for at most the maximum lease time. */
  ghost predicate BoundedTakeover(before: RunState, after: RunState, now: nat) {
    && |after.events| == |before.events| + 1
    && after.events[|before.events|].kind.LeaseClaimed?
    && var claim := after.events[|before.events|].kind;
    && claim.claimedAt <= now < claim.claimExpiresAt <= claim.claimedAt + MAX_WORKER_LEASE_MS
    && after.projection.lease == Some(Lease(claim.ownerId, claim.leaseId, claim.claimedAt, claim.claimedAt, claim.claimExpiresAt))
  }

  lemma {:induction false} NoClaimNoNewLease(before: RunState, after: RunState)
    requires Valid(after) && Valid(before) && Extends(after, before) && after.projection.lease.Some?
    ensures || (exists k :: |before.events| <= k < |after.events| && after.events[k].kind.LeaseClaimed?
                  && after.events[k].kind.ownerId == after.projection.lease.value.ownerId
                  && after.events[k].kind.leaseId == after.projection.lease.value.leaseId)
            || (before.projection.lease.Some?
                && before.projection.lease.value.ownerId == after.projection.lease.value.ownerId
                && before.projection.lease.value.leaseId == after.projection.lease.value.leaseId)
    decreases |after.events|
  {
    hide Apply;
    if |after.events| == |before.events| {
      EqualLengthExtensionIsEqual(after, before);
    } else {
      ValidSequences(before);
      var prior, last := Prior(after), after.events[|after.events| - 1];
      LeaseStep(after.runId, prior.projection, last.kind, |after.events|);
      if !last.kind.LeaseClaimed? {
        NoClaimNoNewLease(before, prior);
        assert forall k :: 0 <= k < |prior.events| ==> prior.events[k] == after.events[k];
      }
    }
  }

  /** Only a claim gives a run a lease identity it did not have. */
  lemma LeaseStep(runId: string, p: Projection, kind: EventKind, sequence: nat)
    requires Apply(runId, p, kind, sequence).Ok? && Apply(runId, p, kind, sequence).value.lease.Some?
    ensures var lease := Apply(runId, p, kind, sequence).value.lease.value;
            if kind.LeaseClaimed?
            then lease == Lease(kind.ownerId, kind.leaseId, kind.claimedAt, kind.claimedAt, kind.claimExpiresAt)
            else p.lease.Some? && p.lease.value.ownerId == lease.ownerId && p.lease.value.leaseId == lease.leaseId
  {
    if ActivityKind(kind) {
      ActivityKeepsControl(runId, p, kind, sequence);
    }
  }

  lemma AtomicClaimIsBounded(before: RunState, after: RunState, now: nat)
    requires Valid(after) && Valid(before) && Extends(after, before) && IsAtomicLeaseClaim(before, after, now)
    ensures BoundedTakeover(before, after, now)
  {
    hide Apply;
    ValidSequences(before);
    var prior := Prior(after);
    EqualLengthExtensionIsEqual(prior, before);
    LeaseStep(after.runId, prior.projection, after.events[|before.events|].kind, |after.events|);
  }

  /**
   Takeover: a write that does not carry the active lease's own authority changes who holds the run
   only by a single bounded claim, and only once the previous lease has expired or been released.
   */
  lemma TakeoverIsABoundedClaim(worlds: seq<World>, steps: seq<Action>, i: nat, id: string)
    requires Behaviour(worlds, steps) && i < |steps| && Writes(worlds[i], worlds[i + 1], id)
    requires Acts(worlds[i], steps[i])
    requires Presents(worlds[i], steps[i]).None?
    ensures ActiveLease(worlds[i].runs[id], worlds[i].clock).None?
    ensures worlds[i].runs[id].projection.lease.Some? || AppendsLeaseClaim(worlds[i].runs[id], worlds[i + 1].runs[id])
            ==> BoundedTakeover(worlds[i].runs[id], worlds[i + 1].runs[id], worlds[i].clock)
  {
    hide Next, Swap, Prepare, Valid, RejectResolutions, ValidateApproval;
    InvariantHolds(worlds, steps, i);
    var before, after := worlds[i].runs[id], worlds[i + 1].runs[id];
    var _ := WriteIsAccepted(worlds[i], steps[i], worlds[i + 1], id);
    if before.projection.lease.Some? || AppendsLeaseClaim(before, after) {
      AtomicClaimIsBounded(before, after, worlds[i].clock);
    }
  }

  predicate NewHolder(before: RunState, after: RunState) {
    && after.projection.lease.Some?
    && (before.projection.lease.None?
        || !Holds(before.projection.lease.value,
                  Authority(after.projection.lease.value.ownerId, after.projection.lease.value.leaseId)))
  }

  /**
   Whoever comes to hold a run got it in one of two ways: by a single bounded claim made when no lease
   was active, or from the active holder itself, in a write that carried the holder's own authority.
   It is the first exactly when the write presents no authority.
   */
  lemma LeaseChangesHands(worlds: seq<World>, steps: seq<Action>, i: nat, id: string)
    requires Behaviour(worlds, steps) && i < |steps| && Writes(worlds[i], worlds[i + 1], id)
    requires NewHolder(worlds[i].runs[id], worlds[i + 1].runs[id])
    ensures Acts(worlds[i], steps[i])
    ensures match Presents(worlds[i], steps[i])
            case None => ActiveLease(worlds[i].runs[id], worlds[i].clock).None?
                         && BoundedTakeover(worlds[i].runs[id], worlds[i + 1].runs[id], worlds[i].clock)
            case Some(authority) => ActiveFor(worlds[i].runs[id], worlds[i].clock, authority)
    ensures Presents(worlds[i], steps[i]).None? <==>
              ActiveLease(worlds[i].runs[id], worlds[i].clock).None?
              && BoundedTakeover(worlds[i].runs[id], worlds[i + 1].runs[id], worlds[i].clock)
  {
    hide Next, Swap, Prepare, Valid, RejectResolutions, ValidateApproval, IsAtomicLeaseClaim, BoundedTakeover;
    InvariantHolds(worlds, steps, i);
    var _ := WriteIsAccepted(worlds[i], steps[i], worlds[i + 1], id);
    var before, after := worlds[i].runs[id], worlds[i + 1].runs[id];
    NoClaimNoNewLease(before, after);
    if k :| |before.events| <= k < |after.events| && after.events[k].kind.LeaseClaimed? {
      assert Appended(before, after)[k - |before.events|] == after.events[k];
    }
    if Presents(worlds[i], steps[i]).None? {
      TakeoverIsABoundedClaim(worlds, steps, i, id);
    }
  }

  /**
   The second way is not bounded: the store lets an active holder commit another worker's claim that
   only begins when its own lease ends, so a change of holder need not be a claim valid at that moment.
   */
  lemma HolderMayHandOverEarly()
    ensures var s := NewRun("s", "r", Sync).value;
            var held := Append(s, Custom("a"), LeaseClaimed("a", "1", 0, 10));
            && held.Ok?
            && var handed := Append(held.value, Custom("b"), LeaseClaimed("b", "2", 10, 20));
            && handed.Ok?
            && Validate(held.value, 2, handed.value, Some(Authority("a", "1")), None, 0).Ok?
            && NewHolder(held.value, handed.value)
            && !BoundedTakeover(held.value, handed.value, 0)
  {
    hide Append, Validate, BoundedTakeover;
    FirstClaim();
    var held := Append(NewRun("s", "r", Sync).value, Custom("a"), LeaseClaimed("a", "1", 0, 10)).value;
    LaterClaim(held);
    HolderCommitsLaterClaim(held, Append(held, Custom("b"), LeaseClaimed("b", "2", 10, 20)).value);
  }

  lemma FirstClaim()
    ensures var held := Append(NewRun("s", "r", Sync).value, Custom("a"), LeaseClaimed("a", "1", 0, 10));
            && held.Ok? && |held.value.events| == 2
            && held.value.events[0].id == StartId && held.value.events[1].id == Custom("a")
            && LastSequence(held.value) == 2 && held.value.projection.lease == Some(Lease("a", "1", 0, 0, 10))
  {
    hide ApplyActivity;
  }

  /** The log takes a claim that begins when the held lease ends. */
  lemma LaterClaim(held: RunState)
    requires |held.events| == 2 && held.events[0].id == StartId && held.events[1].id == Custom("a")
    requires held.projection.lease == Some(Lease("a", "1", 0, 0, 10))
    ensures var handed := Append(held, Custom("b"), LeaseClaimed("b", "2", 10, 20));
            && handed.Ok? && Extends(handed.value, held)
            && handed.value.events == held.events + [Event(3, Custom("b"), LeaseClaimed("b", "2", 10, 20))]
            && handed.value.projection.lease == Some(Lease("b", "2", 10, 10, 20))
  {
    hide ApplyActivity;
    assert !IdUsed(held.events, Custom("b"));
  }

  lemma HolderCommitsLaterClaim(held: RunState, handed: RunState)
    requires Extends(handed, held) && |held.events| == 2 && LastSequence(held) == 2
    requires handed.events == held.events + [Event(3, Custom("b"), LeaseClaimed("b", "2", 10, 20))]
    requires held.projection.lease == Some(Lease("a", "1", 0, 0, 10))
    ensures Validate(held, 2, handed, Some(Authority("a", "1")), None, 0).Ok?
    ensures !BoundedTakeover(held, handed, 0)
  {
    hide IsAtomicLeaseClaim, ValidateApproval;
    var claim := Event(3, Custom("b"), LeaseClaimed("b", "2", 10, 20));
    assert Appended(held, handed) == [claim];
    assert RejectResolutions(held, [claim]).Ok?;
    assert handed.events[2] == claim;
  }

  // ---------------------------------------------------------------- lapsed holders

  predicate ClaimedBefore(events: seq<Event>, leaseId: string) {
    exists k :: 0 <= k < |events| && events[k].kind.LeaseClaimed? && events[k].kind.leaseId == leaseId
  }

  /** Lease tokens are never reused within a run. */
  predicate FreshTokens(events: seq<Event>) {
    forall i, j :: 0 <= i < j < |events| && events[i].kind.LeaseClaimed? && events[j].kind.LeaseClaimed?
                   ==> events[i].kind.leaseId != events[j].kind.leaseId
  }

  /** The authority's lease was claimed once and is no longer the active one: superseded, released or expired. */
  ghost predicate Lapsed(w: World, id: string, authority: Authority) {
    && id in w.runs
    && ClaimedBefore(w.runs[id].events, authority.leaseId)
    && !ActiveFor(w.runs[id], w.clock, authority)
  }

  lemma LapsedCannotWrite(w: World, step: Action, w': World, id: string, authority: Authority)
    requires Invariant(w) && Next(w, step, w') && Lapsed(w, id, authority) && Writes(w, w', id)
    ensures Acts(w, step)
    ensures Presents(w, step) != Some(authority)
  {
    hide Next, Swap, Prepare, Valid, RejectResolutions, ValidateApproval;
    var _ := WriteIsAccepted(w, step, w', id);
  }

  /** A lapsed holder's token returns neither by renewal nor by a claim, since tokens are fresh. */
  lemma TokenDoesNotReturn(before: RunState, after: RunState, c: nat, authority: Authority)
    requires Valid(before) && Valid(after) && Extends(after, before) && FreshTokens(after.events)
    requires c < |before.events| && before.events[c].kind.LeaseClaimed? && before.events[c].kind.leaseId == authority.leaseId
    requires after.projection.lease.Some? && Holds(after.projection.lease.value, authority)
    ensures before.projection.lease.Some? && Holds(before.projection.lease.value, authority)
    ensures !(|after.events| > |before.events| && after.events[|before.events|].kind.LeaseClaimed?
              && after.events[|before.events|].kind.leaseId == authority.leaseId)
  {
    NoClaimNoNewLease(before, after);
    assert after.events[c] == before.events[c];
    forall k | |before.events| <= k < |after.events| && after.events[k].kind.LeaseClaimed?
      ensures after.events[k].kind.leaseId != authority.leaseId
    {
      assert after.events[c].kind.leaseId != after.events[k].kind.leaseId;
    }
  }

  /** Time does not go back, and stored logs stay and stay valid. */
  lemma StepKeepsTime(w: World, step: Action, w': World)
    requires Invariant(w) && Next(w, step, w')
    ensures w.clock <= w'.clock && Grows(w.runs, w'.runs)
    ensures RunsOk(w.runs) && RunsOk(w'.runs)
  {
    hide Swap, Prepare, Valid, Extends, ControlOnly, DefiniteExpiry;
    NextKeepsInvariant(w, step, w');
  }

  lemma LapsedStaysLapsed(w: World, step: Action, w': World, id: string, authority: Authority)
    requires Invariant(w) && Next(w, step, w') && Lapsed(w, id, authority)
    requires id in w'.runs && FreshTokens(w'.runs[id].events)
    ensures Lapsed(w', id, authority)
  {
    hide Next, Invariant, RejectResolutions, ValidateApproval, ValidateAppendOnly, Valid, AppendsLeaseClaim;
    StepKeepsTime(w, step, w');
    var before, after := w.runs[id], w'.runs[id];
    var c :| 0 <= c < |before.events| && before.events[c].kind.LeaseClaimed?
      && before.events[c].kind.leaseId == authority.leaseId;
    assert after.events[c] == before.events[c];
    if after != before && ActiveFor(after, w'.clock, authority) {
      var _ := WriteIsAccepted(w, step, w', id);
      TokenDoesNotReturn(before, after, c, authority);
    }
  }

  /**
   A superseded, released or expired holder can never write, renew or release again: from the
   moment its lease lapsed, no write it presents is accepted, in any behaviour whose lease tokens
   are fresh, however many workers come and go.
   */
  lemma {:induction false} LapsedHolderNeverWritesAgain(
    worlds: seq<World>, steps: seq<Action>, i: nat, j: nat, id: string, authority: Authority)
    requires Behaviour(worlds, steps) && i <= j < |steps| && Lapsed(worlds[i], id, authority)
    requires forall k :: i <= k < |worlds| && id in worlds[k].runs ==> FreshTokens(worlds[k].runs[id].events)
    ensures Lapsed(worlds[j], id, authority) && Lapsed(worlds[j + 1], id, authority)
    ensures Acts(worlds[j], steps[j])
    ensures Presents(worlds[j], steps[j]) == Some(authority) ==> !Writes(worlds[j], worlds[j + 1], id)
    decreases j - i
  {
    hide Swap, Prepare, Valid, FreshTokens, ActiveFor;
    if i < j {
      LapsedHolderNeverWritesAgain(worlds, steps, i, j - 1, id, authority);
    }
    InvariantHolds(worlds, steps, j);
    var w, w' := worlds[j], worlds[j + 1];
    assert Next(w, steps[j], w');
    NextKeepsInvariant(w, steps[j], w');
    LapsedStaysLapsed(w, steps[j], w', id, authority);
    if Writes(w, w', id) {
      LapsedCannotWrite(w, steps[j], w', id, authority);
    }
  }
}

/**
 Exactly which writes the store accepts, told by revisions, leases, appended events and approvals: what it
 must refuse is refused, and what it must accept, a takeover of a lapsed lease above all, is accepted.
 */
module StoreAcceptance {
  import opened Wrappers
  import opened RunLog
  import opened RunInvariants
  import opened RunCommands
  import opened DurableStore
  import opened Driver

  // ---------------------------------------------------------------- what a write may be

  /** The replacement is the stored run with events appended, or the stored run itself. */
  predicate AppendsTo(current: RunState, replacement: RunState) {
    && replacement.runId == current.runId && replacement.sessionId == current.sessionId
    && current.events <= replacement.events
    && (|replacement.events| == |current.events| ==> replacement == current)
  }

  predicate LeaseRunning(current: RunState, now: nat) {
    current.projection.lease.Some? && now < current.projection.lease.value.expiresAt
  }

  /** Exactly one event: the claim of the lease now held, valid now, for no longer than the maximum. */
  predicate IsTimelyClaim(news: seq<Event>, held: Option<Lease>, now: nat) {
    && |news| == 1 && news[0].kind.LeaseClaimed? && held.Some?
    && var claim := news[0].kind;
    && claim.claimedAt <= now < claim.claimExpiresAt <= claim.claimedAt + MAX_WORKER_LEASE_MS
    && held.value.ownerId == claim.ownerId && held.value.leaseId == claim.leaseId
    && held.value.acquiredAt == claim.claimedAt && held.value.expiresAt == claim.claimExpiresAt
  }

  predicate SomeClaim(news: seq<Event>) {
    exists k :: 0 <= k < |news| && news[k].kind.LeaseClaimed?
  }

  /** A running lease admits its holder only; without one, nobody presents authority and leases change by claims. */
  predicate LeaseAdmits(current: RunState, news: seq<Event>, held: Option<Lease>, authority: Option<Authority>, now: nat) {
    if LeaseRunning(current, now) then
      var lease := current.projection.lease.value;
      authority == Some(Authority(lease.ownerId, lease.leaseId))
    else
      && authority.None?
      && (current.projection.lease.Some? || SomeClaim(news) ==> IsTimelyClaim(news, held, now))
  }

  predicate StoredPending(current: RunState, id: string) {
    id in current.projection.approvals && current.projection.approvals[id].status == Pending
  }

  /** Unguarded, only stored approvals without a window may be resolved. */
  predicate ResolvesUntyped(current: RunState, news: seq<Event>) {
    forall k :: 0 <= k < |news| && news[k].kind.ApprovalResolved? ==>
                  var id := news[k].kind.resolvedId;
                  id in current.projection.approvals && current.projection.approvals[id].window.None?
  }

  predicate ResolvesAt(news: seq<Event>, k: int, id: string) {
    0 <= k < |news| && news[k].kind.ApprovalResolved? && news[k].kind.resolvedId == id
  }

  /** One resolution among those a guarded write may contain. */
  predicate MayResolve(current: RunState, kind: EventKind, target: string, now: nat)
    requires kind.ApprovalResolved?
  {
    && StoredPending(current, kind.resolvedId)
    && (kind.approved ==>
          && kind.resolvedId == target && current.projection.approvals[target].window.Some?
          && now < current.projection.approvals[target].window.value.1)
  }

  /** Guarded, a typed pending approval is resolved once; nothing else is approved; and it is approved in time. */
  ghost predicate ResolvesNamed(current: RunState, news: seq<Event>, replacement: RunState, target: string, now: nat) {
    && StoredPending(current, target) && current.projection.approvals[target].window.Some?
    && target in replacement.projection.approvals && replacement.projection.approvals[target].status != Pending
    && (exists k :: ResolvesAt(news, k, target))
    && (forall j, k :: ResolvesAt(news, j, target) && ResolvesAt(news, k, target) ==> j == k)
    && (forall k :: 0 <= k < |news| && news[k].kind.ApprovalResolved? ==> MayResolve(current, news[k].kind, target, now))
  }

  /** The write is one the store has to accept. */
  ghost predicate Acceptable(
    current: RunState, expected: nat, replacement: RunState, authority: Option<Authority>, approval: Option<string>, now: nat)
  {
    && expected == LastSequence(current) && AppendsTo(current, replacement)
    && var news := replacement.events[|current.events|..];
    && LeaseAdmits(current, news, replacement.projection.lease, authority, now)
    && (approval.None? ==> ResolvesUntyped(current, news))
    && (approval.Some? ==> ResolvesNamed(current, news, replacement, approval.value, now))
  }

  // ---------------------------------------------------------------- the four checks

  lemma FenceIsExact(current: RunState, replacement: RunState, authority: Option<Authority>, now: nat)
    requires current.events <= replacement.events
    ensures var news := replacement.events[|current.events|..];
            ValidateFence(current, replacement, authority, now).Ok?
            <==> LeaseAdmits(current, news, replacement.projection.lease, authority, now)
  {
    var news := replacement.events[|current.events|..];
    assert Appended(current, replacement) == news;
    assert |news| == 1 ==> news[0] == replacement.events[|current.events|];
    assert IsAtomicLeaseClaim(current, replacement, now) <==> IsTimelyClaim(news, replacement.projection.lease, now);
    assert AppendsLeaseClaim(current, replacement) <==> SomeClaim(news);
  }

  lemma {:induction false} RejectionIsExact(current: RunState, news: seq<Event>)
    ensures RejectResolutions(current, news).Ok? <==> ResolvesUntyped(current, news)
  {
    if news != [] {
      RejectionIsExact(current, news[1..]);
      assert news == [news[0]] + news[1..];
      assert forall k :: 0 <= k < |news[1..]| ==> news[1..][k] == news[k + 1];
      if ResolvesUntyped(current, news[1..]) && RejectResolutions(current, news).Ok? {
        forall k | 0 <= k < |news| && news[k].kind.ApprovalResolved?
          ensures var id := news[k].kind.resolvedId;
                  id in current.projection.approvals && current.projection.approvals[id].window.None?
        {
          assert k > 0 ==> news[k] == news[1..][k - 1];
        }
      }
    }
  }

  /** How many of the new events resolve `id`. */
  function Resolutions(news: seq<Event>, id: string): nat {
    if news == [] then 0
    else (if news[0].kind.ApprovalResolved? && news[0].kind.resolvedId == id then 1 else 0) + Resolutions(news[1..], id)
  }

  lemma {:induction false} NoResolution(news: seq<Event>, id: string)
    ensures Resolutions(news, id) == 0 <==> forall k :: !ResolvesAt(news, k, id)
  {
    if news != [] {
      var rest := news[1..];
      NoResolution(rest, id);
      if Resolutions(news, id) == 0 {
        forall k
          ensures !ResolvesAt(news, k, id)
        {
          assert k > 0 && ResolvesAt(news, k, id) ==> ResolvesAt(rest, k - 1, id);
        }
      } else if !ResolvesAt(news, 0, id) {
        var k :| ResolvesAt(rest, k, id);
        assert ResolvesAt(news, k + 1, id);
      }
    }
  }

  lemma {:induction false} OneResolution(news: seq<Event>, id: string)
    ensures Resolutions(news, id) == 1 <==>
              && (exists k :: ResolvesAt(news, k, id))
              && (forall j, k :: ResolvesAt(news, j, id) && ResolvesAt(news, k, id) ==> j == k)
  {
    if news != [] {
      var rest := news[1..];
      OneResolution(rest, id);
      NoResolution(rest, id);
      forall k | ResolvesAt(news, k, id) && k > 0
        ensures ResolvesAt(rest, k - 1, id)
      {
      }
      forall k | ResolvesAt(rest, k, id)
        ensures ResolvesAt(news, k + 1, id)
      {
      }
      if ResolvesAt(news, 0, id) {
        if k :| ResolvesAt(rest, k, id) {
          assert ResolvesAt(news, k + 1, id) && k + 1 != 0;
        } else {
          forall j | ResolvesAt(news, j, id)
            ensures j == 0
          {
            assert j > 0 ==> ResolvesAt(rest, j - 1, id);
          }
        }
      } else {
        SameResolutions(news, id);
      }
    }
  }

  lemma SameResolutions(news: seq<Event>, id: string)
    requires news != [] && !ResolvesAt(news, 0, id)
    ensures (exists k :: ResolvesAt(news, k, id)) <==> exists k :: ResolvesAt(news[1..], k, id)
    ensures (forall j, k :: ResolvesAt(news, j, id) && ResolvesAt(news, k, id) ==> j == k)
            <==> forall j, k :: ResolvesAt(news[1..], j, id) && ResolvesAt(news[1..], k, id) ==> j == k
  {
    var rest := news[1..];
    if k :| ResolvesAt(news, k, id) {
      assert ResolvesAt(rest, k - 1, id);
    }
    if k :| ResolvesAt(rest, k, id) {
      assert ResolvesAt(news, k + 1, id);
    }
    if forall j, k :: ResolvesAt(news, j, id) && ResolvesAt(news, k, id) ==> j == k {
      forall j, k | ResolvesAt(rest, j, id) && ResolvesAt(rest, k, id)
        ensures j == k
      {
        assert ResolvesAt(news, j + 1, id) && ResolvesAt(news, k + 1, id);
      }
    }
    if forall j, k :: ResolvesAt(rest, j, id) && ResolvesAt(rest, k, id) ==> j == k {
      forall j, k | ResolvesAt(news, j, id) && ResolvesAt(news, k, id)
        ensures j == k
      {
        assert ResolvesAt(rest, j - 1, id) && ResolvesAt(rest, k - 1, id);
      }
    }
  }

  /** The guarded scan succeeds exactly on resolutions that are pending and approve nothing but the target. */
  lemma {:induction false} ScanIsExact(current: RunState, target: string, now: nat, scan: Scan, news: seq<Event>)
    requires target in current.projection.approvals && current.projection.approvals[target].window.Some?
    ensures var r := ScanResolutions(current, target, now, scan, news);
            && (r.Ok? && !r.value.expired <==>
                  && !scan.expired
                  && forall k :: 0 <= k < |news| && news[k].kind.ApprovalResolved? ==> MayResolve(current, news[k].kind, target, now))
            && (r.Ok? ==> r.value.resolutions == scan.resolutions + Resolutions(news, target))
    decreases |news|
  {
    if news != [] {
      var rest, first := news[1..], ScanOne(current, target, now, scan, news[0].kind);
      assert forall k :: 0 < k < |news| ==> news[k] == rest[k - 1];
      assert forall k :: 0 <= k < |rest| ==> rest[k] == news[k + 1];
      if first.Ok? {
        ScanIsExact(current, target, now, first.value, rest);
      }
    }
  }

  lemma ApprovalIsExact(current: RunState, replacement: RunState, target: string, now: nat)
    requires current.events <= replacement.events
    ensures ValidateApproval(current, replacement, target, now).Ok?
            <==> ResolvesNamed(current, replacement.events[|current.events|..], replacement, target, now)
  {
    hide ScanResolutions, MayResolve, ResolvesAt;
    var news := replacement.events[|current.events|..];
    assert Appended(current, replacement) == news;
    if StoredPending(current, target) && current.projection.approvals[target].window.Some? {
      ScanIsExact(current, target, now, Scan(0, false), news);
      OneResolution(news, target);
    }
  }

  /** The store accepts a write if and only if it is acceptable, at any revision, for any writer, on any path. */
  lemma StoreAcceptsExactly(
    current: RunState, expected: nat, replacement: RunState, authority: Option<Authority>, approval: Option<string>, now: nat)
    ensures Validate(current, expected, replacement, authority, approval, now).Ok?
            <==> Acceptable(current, expected, replacement, authority, approval, now)
  {
    hide ValidateFence, RejectResolutions, ValidateApproval, LeaseAdmits, ResolvesUntyped, ResolvesNamed;
    if AppendsTo(current, replacement) {
      FenceIsExact(current, replacement, authority, now);
      RejectionIsExact(current, replacement.events[|current.events|..]);
      assert Appended(current, replacement) == replacement.events[|current.events|..];
      if approval.Some? {
        ApprovalIsExact(current, replacement, approval.value, now);
      }
    }
  }

  /** A refusal names what stood in the way: the revision first, then the lease. */
  lemma RefusalsNameTheirCause(
    current: RunState, expected: nat, replacement: RunState, authority: Option<Authority>, approval: Option<string>, now: nat)
    requires current.events <= replacement.events
    ensures var r := Validate(current, expected, replacement, authority, approval, now);
            var timely := IsTimelyClaim(replacement.events[|current.events|..], replacement.projection.lease, now);
            if expected != LastSequence(current) then r == Err(RevisionConflict(expected, LastSequence(current)))
            else if LeaseRunning(current, now) then
              var lease := current.projection.lease.value;
              && (authority.None? ==> r == Err(WorkerLeaseRequired(lease.ownerId)))
              && (authority.Some? && authority.value != Authority(lease.ownerId, lease.leaseId) ==>
                    r == Err(WorkerLeaseConflict(authority.value.ownerId)))
            else
              && (authority.Some? ==> r == Err(WorkerLeaseConflict(authority.value.ownerId)))
              && (authority.None? && current.projection.lease.Some? && !timely ==> r == Err(WorkerLeaseRecoveryRequired))
              && (authority.None? && current.projection.lease.None? && !timely && SomeClaim(replacement.events[|current.events|..]) ==>
                    r == Err(InvalidWorkerLeaseClaim))
  {
    hide ValidateAppendOnly, RejectResolutions, ValidateApproval;
    var news := replacement.events[|current.events|..];
    assert Appended(current, replacement) == news;
    assert |news| == 1 ==> news[0] == replacement.events[|current.events|];
    assert IsAtomicLeaseClaim(current, replacement, now) <==> IsTimelyClaim(news, replacement.projection.lease, now);
    assert AppendsLeaseClaim(current, replacement) <==> SomeClaim(news);
  }

  // ---------------------------------------------------------------- a takeover succeeds

  /** What a log demands of a claim: identifiers, a bounded window, and the previous lease over when it begins. */
  predicate ClaimFits(p: Projection, owner: string, lease: string, at: nat, expires: nat) {
    && ValidIdentifier(owner) && ValidIdentifier(lease) && at < expires <= at + MAX_WORKER_LEASE_MS
    && (p.lease.Some? ==> p.lease.value.expiresAt <= at)
  }

  lemma ClaimAppends(s: RunState, id: EventId, owner: string, lease: string, at: nat, expires: nat)
    requires Valid(s) && !IdUsed(s.events, id)
    ensures var r := Append(s, id, LeaseClaimed(owner, lease, at, expires));
            && (r.Ok? <==> ClaimFits(s.projection, owner, lease, at, expires))
            && (r.Ok? ==>
                  && Valid(r.value) && AppendsTo(s, r.value) && r.value != s
                  && r.value.events == s.events + [Event(|s.events| + 1, id, LeaseClaimed(owner, lease, at, expires))]
                  && r.value.projection == s.projection.(lease := Some(Lease(owner, lease, at, at, expires))))
  {
    hide ApplyActivity, Valid;
    var kind := LeaseClaimed(owner, lease, at, expires);
    if Append(s, id, kind).Ok? {
      AppendValid(s, id, kind);
    }
  }

  /** A claim valid at the moment of the write, on a run without a running lease, is accepted from anybody. */
  lemma TakeoverIsAccepted(s: RunState, id: EventId, owner: string, lease: string, at: nat, expires: nat, now: nat)
    requires Valid(s) && !IdUsed(s.events, id) && ClaimFits(s.projection, owner, lease, at, expires)
    requires !LeaseRunning(s, now)
    ensures Append(s, id, LeaseClaimed(owner, lease, at, expires)).Ok?
    ensures Validate(s, LastSequence(s), Append(s, id, LeaseClaimed(owner, lease, at, expires)).value, None, None, now).Ok?
            <==> at <= now < expires
  {
    hide Append, Validate, Valid;
    ClaimAppends(s, id, owner, lease, at, expires);
    var t := Append(s, id, LeaseClaimed(owner, lease, at, expires)).value;
    StoreAcceptsExactly(s, LastSequence(s), t, None, None, now);
    assert t.events[|s.events|..] == [Event(|s.events| + 1, id, LeaseClaimed(owner, lease, at, expires))];
  }

  /**
   A driver without a lease that is in step with the store takes over the run if and only if nobody's
   lease is running and the claim fits and is valid now; it then holds the lease, in its state and in the
   store, and is told whether it recovered an earlier one.
   */
  lemma ClaimSucceedsExactly(core: Core, runs: Runs, owner: string, lease: string, at: nat, expires: nat, now: nat)
    requires Valid(core.local) && !core.poisoned && core.authority.None?
    requires LoadFrom(runs, core.local.runId) == Ok(core.local)
    requires !IdUsed(core.local.events, LeaseEventId(ClaimPhase, lease, at))
    ensures var (core', runs', result) := Transition(core, runs, false, ClaimLease(owner, lease, at, expires), now);
            && (result.Ok? <==>
                  && !LeaseRunning(core.local, now) && at <= now < expires
                  && ClaimFits(core.local.projection, owner, lease, at, expires))
            && (result.Ok? ==>
                  && result == Ok(Flag(core.local.projection.lease.Some?))
                  && core'.local.projection.lease == Some(Lease(owner, lease, at, at, expires))
                  && core' == core.(local := core'.local) && runs' == runs[core.local.runId := core'.local])
  {
    hide Append, Validate, Valid, ClaimFits, LastSequence;
    var id, kind := LeaseEventId(ClaimPhase, lease, at), LeaseClaimed(owner, lease, at, expires);
    ClaimAppends(core.local, id, owner, lease, at, expires);
    if Append(core.local, id, kind).Ok? {
      var t := Append(core.local, id, kind).value;
      if LeaseRunning(core.local, now) {
        StoreAcceptsExactly(core.local, LastSequence(core.local), t, None, None, now);
      } else {
        TakeoverIsAccepted(core.local, id, owner, lease, at, expires, now);
      }
    }
  }
}

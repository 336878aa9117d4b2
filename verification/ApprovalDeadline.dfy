/**
 Typed approvals over whole behaviours: after a run is created, an approval becomes approved only
 through the guarded swap that names it, strictly before its persisted expiry.
 */
module ApprovalDeadline {
  import opened Wrappers
  import opened RunLog
  import opened RunInvariants
  import opened DurableStore
  import opened Coordination
  import opened Fencing

  predicate TypedApproved(s: RunState, id: string) {
    && id in s.projection.approvals
    && s.projection.approvals[id].window.Some?
    && s.projection.approvals[id].status == Approved
  }

  // ---------------------------------------------------------------- what the scans accept

  lemma {:induction false} RejectedMeansNone(current: RunState, appended: seq<Event>, k: nat)
    requires RejectResolutions(current, appended).Ok? && k < |appended| && appended[k].kind.ApprovalResolved?
    ensures var id := appended[k].kind.resolvedId;
            id in current.projection.approvals && current.projection.approvals[id].window.None?
    decreases |appended|
  {
    if k > 0 {
      RejectedMeansNone(current, appended[1..], k - 1);
    }
  }

  lemma {:induction false} ScanKeepsExpiry(current: RunState, target: string, now: nat, scan: Scan, appended: seq<Event>)
    requires ScanResolutions(current, target, now, scan, appended).Ok? && scan.expired
    ensures ScanResolutions(current, target, now, scan, appended).value.expired
    decreases |appended|
  {
    if appended != [] {
      ScanKeepsExpiry(current, target, now, ScanOne(current, target, now, scan, appended[0].kind).value, appended[1..]);
    }
  }

  /** An approval that passes the guarded scan is the named one, pending, typed and unexpired. */
  lemma {:induction false} ScannedApproval(current: RunState, target: string, now: nat, scan: Scan, appended: seq<Event>, k: nat)
    requires ScanResolutions(current, target, now, scan, appended).Ok?
    requires !ScanResolutions(current, target, now, scan, appended).value.expired
    requires k < |appended| && appended[k].kind.ApprovalResolved? && appended[k].kind.approved
    ensures appended[k].kind.resolvedId == target
    ensures target in current.projection.approvals
            && current.projection.approvals[target].status == Pending
            && current.projection.approvals[target].window.Some?
            && now < current.projection.approvals[target].window.value.1
    decreases |appended|
  {
    var next := ScanOne(current, target, now, scan, appended[0].kind).value;
    if k > 0 {
      ScannedApproval(current, target, now, next, appended[1..], k - 1);
    } else if next.expired {
      ScanKeepsExpiry(current, target, now, next, appended[1..]);
    }
  }

  // ---------------------------------------------------------------- what a log can do to an approval

  lemma ApprovalStep(runId: string, p: Projection, kind: EventKind, sequence: nat, id: string)
    requires Apply(runId, p, kind, sequence).Ok?
    ensures var q := Apply(runId, p, kind, sequence).value;
            && (id in p.approvals ==> id in q.approvals && q.approvals[id].window == p.approvals[id].window)
            && (id in q.approvals && q.approvals[id].status == Approved ==>
                  || (id in p.approvals && p.approvals[id].status == Approved)
                  || (kind.ApprovalResolved? && kind.resolvedId == id && kind.approved))
  {
    if ActivityKind(kind) {
      ActivityKeepsControl(runId, p, kind, sequence);
    }
  }

  lemma {:induction false} ApprovedBySuffix(before: RunState, after: RunState, id: string)
    requires Valid(before) && Valid(after) && Extends(after, before)
    ensures id in before.projection.approvals ==>
              id in after.projection.approvals
              && after.projection.approvals[id].window == before.projection.approvals[id].window
    ensures id in after.projection.approvals && after.projection.approvals[id].status == Approved ==>
              || (id in before.projection.approvals && before.projection.approvals[id].status == Approved)
              || (exists k :: |before.events| <= k < |after.events| && after.events[k].kind.ApprovalResolved?
                    && after.events[k].kind.resolvedId == id && after.events[k].kind.approved)
    decreases |after.events|
  {
    hide Apply;
    if |after.events| == |before.events| {
      EqualLengthExtensionIsEqual(after, before);
    } else {
      ValidSequences(before);
      var prior, last := Prior(after), after.events[|after.events| - 1];
      ApprovedBySuffix(before, prior, id);
      ApprovalStep(after.runId, prior.projection, last.kind, |after.events|, id);
      assert forall k :: 0 <= k < |prior.events| ==> prior.events[k] == after.events[k];
    }
  }

  /**
   The step from `w` to `w'` is a guarded swap that took effect: it names `id`, it submitted the log now
   stored, and it turned `id` from pending to approved while its persisted expiry had not been reached.
   */
  ghost predicate ApprovesInTime(w: World, step: Action, w': World, run: string, id: string) {
    && Names(step) == Some(id)
    && run in w.runs && run in w'.runs
    && (step.ForeignSwap? ==> step.replacement == w'.runs[run])
    && (step.Govern? ==> step.candidate == w'.runs[run])
    && id in w.runs[run].projection.approvals && w.runs[run].projection.approvals[id].status == Pending
    && TypedApproved(w'.runs[run], id)
    && var window := w.runs[run].projection.approvals[id].window;
    && window.Some? && w.clock < window.value.1
    && w'.runs[run].projection.approvals[id].window == window
  }

  /** One step: the write that approves a typed approval is the guarded swap naming it, before its expiry. */
  lemma ApprovingWriteIsGuarded(w: World, step: Action, w': World, run: string, id: string)
    requires Invariant(w) && Next(w, step, w') && run in w.runs && run in w'.runs
    requires TypedApproved(w'.runs[run], id) && !TypedApproved(w.runs[run], id)
    ensures ApprovesInTime(w, step, w', run, id)
  {
    hide Next, Apply, ScanResolutions, RejectResolutions, ValidateFence, Valid;
    var before, after := w.runs[run], w'.runs[run];
    var expected := WriteIsAccepted(w, step, w', run);
    ApprovedBySuffix(before, after, id);
    var k :| |before.events| <= k < |after.events| && after.events[k].kind.ApprovalResolved?
      && after.events[k].kind.resolvedId == id && after.events[k].kind.approved;
    var appended := Appended(before, after);
    assert appended[k - |before.events|] == after.events[k];
    if Names(step).None? {
      RejectedMeansNone(before, appended, k - |before.events|);
    } else {
      ScannedApproval(before, Names(step).value, w.clock, Scan(0, false), appended, k - |before.events|);
    }
  }

  /**
   The approval deadline: in every behaviour, a typed approval that is approved now and was not when
   the run was first seen was approved by one guarded swap naming exactly it, which took effect at a
   store clock strictly before its persisted expiry.
   */
  lemma {:induction false} ApprovedOnlyBeforeExpiry(worlds: seq<World>, steps: seq<Action>, i: nat, j: nat, run: string, id: string)
    returns (k: nat)
    requires Behaviour(worlds, steps) && i <= j < |worlds| && run in worlds[i].runs && run in worlds[j].runs
    requires TypedApproved(worlds[j].runs[run], id) && !TypedApproved(worlds[i].runs[run], id)
    ensures i <= k < j && ApprovesInTime(worlds[k], steps[k], worlds[k + 1], run, id)
    ensures worlds[k].runs[run].projection.approvals[id].window == worlds[j].runs[run].projection.approvals[id].window
    decreases j - i
  {
    hide Next, Valid;
    RunsPersist(worlds, steps, i, j - 1);
    InvariantHolds(worlds, steps, j - 1);
    InvariantHolds(worlds, steps, j);
    var w, w' := worlds[j - 1], worlds[j];
    assert Next(w, steps[j - 1], w');
    if TypedApproved(w.runs[run], id) {
      k := ApprovedOnlyBeforeExpiry(worlds, steps, i, j - 1, run, id);
      NextKeepsInvariant(w, steps[j - 1], w');
      ApprovedBySuffix(w.runs[run], w'.runs[run], id);
    } else {
      k := j - 1;
      ApprovingWriteIsGuarded(w, steps[j - 1], w', run, id);
    }
  }

  // ---------------------------------------------------------------- the ordinary and fenced paths

  predicate TypedResolved(s: RunState, id: string) {
    && id in s.projection.approvals
    && s.projection.approvals[id].window.Some?
    && s.projection.approvals[id].status != Pending
  }

  lemma ResolutionStep(runId: string, p: Projection, kind: EventKind, sequence: nat, id: string)
    requires Apply(runId, p, kind, sequence).Ok?
    requires !(kind.ApprovalResolved? && kind.resolvedId == id)
    ensures var q := Apply(runId, p, kind, sequence).value;
            id in q.approvals && q.approvals[id].status != Pending ==> id in p.approvals && q.approvals[id] == p.approvals[id]
  {
    if ActivityKind(kind) {
      ActivityKeepsControl(runId, p, kind, sequence);
    }
  }

  lemma {:induction false} ResolvedBySuffix(before: RunState, after: RunState, id: string)
    requires Valid(before) && Valid(after) && Extends(after, before)
    requires forall k :: |before.events| <= k < |after.events| && after.events[k].kind.ApprovalResolved?
                         ==> after.events[k].kind.resolvedId != id
    ensures TypedResolved(after, id) ==>
              TypedResolved(before, id) && after.projection.approvals[id] == before.projection.approvals[id]
    decreases |after.events|
  {
    hide Apply;
    if |after.events| == |before.events| {
      EqualLengthExtensionIsEqual(after, before);
    } else {
      ValidSequences(before);
      var prior, last := Prior(after), after.events[|after.events| - 1];
      assert forall k :: 0 <= k < |prior.events| ==> prior.events[k] == after.events[k];
      ResolvedBySuffix(before, prior, id);
      ResolutionStep(after.runId, prior.projection, last.kind, |after.events|, id);
    }
  }

  /**
   Off the guarded path no typed approval is ever resolved, as approved or as rejected: not by a
   driver's swap, fenced or not, and not by one whose own batch also requests the approval.
   */
  lemma UnguardedWritesResolveNothing(worlds: seq<World>, steps: seq<Action>, i: nat, run: string, id: string)
    requires Behaviour(worlds, steps) && i < |steps| && run in worlds[i].runs && run in worlds[i + 1].runs
    requires Names(steps[i]).None?
    ensures TypedResolved(worlds[i + 1].runs[run], id) ==>
              TypedResolved(worlds[i].runs[run], id)
              && worlds[i + 1].runs[run].projection.approvals[id] == worlds[i].runs[run].projection.approvals[id]
  {
    hide Next, Apply, RejectResolutions, ValidateFence, Valid;
    InvariantHolds(worlds, steps, i);
    var w, w' := worlds[i], worlds[i + 1];
    assert Next(w, steps[i], w');
    var before, after := w.runs[run], w'.runs[run];
    if after != before && TypedResolved(after, id) {
      var _ := WriteIsAccepted(w, steps[i], w', run);
      var appended := Appended(before, after);
      ApprovedBySuffix(before, after, id);
      forall k | |before.events| <= k < |after.events| && after.events[k].kind.ApprovalResolved?
        ensures after.events[k].kind.resolvedId != id
      {
        assert appended[k - |before.events|] == after.events[k];
        RejectedMeansNone(before, appended, k - |before.events|);
      }
      ResolvedBySuffix(before, after, id);
    }
  }
}

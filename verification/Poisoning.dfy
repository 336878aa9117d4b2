/**
 Poisoned drivers over whole behaviours: a poisoned driver writes nothing, and the one writer that still
 can go through its state is its approver, answering an approval that is pending in that state.
 */
module Poisoning {
  import opened Wrappers
  import opened RunLog
  import opened RunInvariants
  import opened RunCommands
  import opened CommandFacts
  import opened DurableStore
  import opened Driver
  import opened Approver
  import opened Coordination
  import opened PairAtomicity
  import opened DriverHistories

  /** A step of the driver itself, or of the approver that shares its state. */
  predicate StepOf(step: Action, d: nat) {
    (step.Begin? || step.Swapped? || step.Bind? || step.Govern?) && step.agent == d
  }

  predicate Awaits(s: RunState, id: string) {
    id in s.projection.approvals && s.projection.approvals[id].window.Some? && s.projection.approvals[id].status == Pending
  }

  /** Some typed approval is requested and not answered. */
  predicate Waiting(s: RunState) {
    exists id :: id in s.projection.approvals && Awaits(s, id)
  }

  /** A typed approval is pending in a driver's state, which is still the stored one, and its lease allows a write. */
  predicate Answerable(w: World, core: Core) {
    && Waiting(core.local)
    && LoadFrom(w.runs, core.local.runId) == Ok(core.local)
    && EnsureAuthority(core.local, core.authority, w.clock).Ok?
  }

  // ---------------------------------------------------------------- only an answer is written

  lemma {:induction false} CountedResolution(current: RunState, target: string, now: nat, scan: Scan, appended: seq<Event>)
    requires ScanResolutions(current, target, now, scan, appended).Ok?
    requires ScanResolutions(current, target, now, scan, appended).value.resolutions != scan.resolutions
    ensures exists k :: 0 <= k < |appended| && appended[k].kind.ApprovalResolved?
    decreases |appended|
  {
    if appended != [] && !appended[0].kind.ApprovalResolved? {
      CountedResolution(current, target, now, scan, appended[1..]);
      var k :| 0 <= k < |appended[1..]| && appended[1..][k].kind.ApprovalResolved?;
      assert appended[k + 1].kind.ApprovalResolved?;
    }
  }

  /** An accepted answer is no lease claim, so it was written under the lease there is, or where there is none. */
  lemma AcceptedAnswerIsAuthorised(
    current: RunState, expected: nat, replacement: RunState, authority: Option<Authority>, target: string, now: nat)
    requires Validate(current, expected, replacement, authority, Some(target), now).Ok?
    ensures Awaits(current, target) && EnsureAuthority(current, authority, now).Ok?
  {
    hide ScanResolutions, ValidateAppendOnly;
    var appended := Appended(current, replacement);
    CountedResolution(current, target, now, Scan(0, false), appended);
    var k :| 0 <= k < |appended| && appended[k].kind.ApprovalResolved?;
    assert appended[k] == replacement.events[|current.events| + k];
  }

  lemma EffectiveAnswerWasAnswerable(w: World, step: Action, w': World)
    requires Invariant(w) && step.Govern? && Governs(w, step, w') && Effective(step.fate) && step.approval.Some?
    ensures Answerable(w, w.agents[step.agent].core)
  {
    hide Validate, Valid, ControlOnly, SettleApproval, EnsureAuthority;
    AcceptedApprovalIsExact(w, step);
    var core := w.agents[step.agent].core;
    AcceptedAnswerIsAuthorised(core.local, LastSequence(core.local), step.candidate, core.authority, step.approval.value, w.clock);
  }

  /** One step: a poisoned driver stays poisoned, and a write through its state is an answer that was possible. */
  lemma PoisonedStep(w: World, step: Action, w': World, d: nat)
    requires Invariant(w) && Next(w, step, w') && d in w.agents && w.agents[d].core.poisoned && step != Crash(d)
    ensures d in w'.agents && w'.agents[d].core.poisoned
    ensures StepOf(step, d) && w'.runs != w.runs ==> Answerable(w, w.agents[d].core)
    ensures w'.agents[d].core.local != w.agents[d].core.local ==> StepOf(step, d) && w'.runs != w.runs
  {
    hide Prepare, Swap, Valid, LoadFrom, ControlOnly, DefiniteExpiry, Answerable;
    assert AgentOk(w.runs, w.agents[d]);
    if step.Begin? && step.agent == d {
      PreparedIsOk(w, step);
    } else if step.Govern? && step.agent == d && Effective(step.fate) {
      EffectiveAnswerWasAnswerable(w, step, w');
      AcceptedApprovalIsExact(w, step);
      assert w'.runs[step.candidate.runId] == step.candidate;
    }
  }

  /**
   A poisoned driver never writes again: it stays poisoned, and when a step through its state changes a
   run, a typed approval was pending in that state, it was the stored one, and its lease allowed a write.
   */
  lemma {:induction false} PoisonedNeverWrites(worlds: seq<World>, steps: seq<Action>, i: nat, j: nat, d: nat)
    requires Behaviour(worlds, steps) && i <= j < |steps|
    requires d in worlds[i].agents && worlds[i].agents[d].core.poisoned
    requires forall k :: i <= k <= j ==> steps[k] != Crash(d)
    ensures d in worlds[j].agents && d in worlds[j + 1].agents && worlds[j + 1].agents[d].core.poisoned
    ensures StepOf(steps[j], d) && worlds[j + 1].runs != worlds[j].runs ==>
              steps[j].Govern? && steps[j].approval.Some? && Answerable(worlds[j], worlds[j].agents[d].core)
    decreases j - i
  {
    hide Next, Invariant, Answerable;
    if i < j {
      PoisonedNeverWrites(worlds, steps, i, j - 1, d);
    }
    InvariantHolds(worlds, steps, j);
    PoisonedStep(worlds[j], steps[j], worlds[j + 1], d);
    if StepOf(steps[j], d) && worlds[j + 1].runs != worlds[j].runs {
      OnlyAnApproverWrites(worlds[j], steps[j], worlds[j + 1], d);
    }
  }

  lemma OnlyAnApproverWrites(w: World, step: Action, w': World, d: nat)
    requires Invariant(w) && Next(w, step, w') && d in w.agents && w.agents[d].core.poisoned
    requires StepOf(step, d) && w'.runs != w.runs
    ensures step.Govern? && step.approval.Some?
  {
    hide Prepare, Swap, Valid, ControlOnly, Extends, DefiniteExpiry;
    assert AgentOk(w.runs, w.agents[d]);
  }

  /** With no approval pending when it is poisoned, a driver's state is frozen and nothing goes through it. */
  lemma {:induction false} PoisonedIdleNeverWrites(worlds: seq<World>, steps: seq<Action>, i: nat, j: nat, d: nat)
    requires Behaviour(worlds, steps) && i <= j < |steps|
    requires d in worlds[i].agents && worlds[i].agents[d].core.poisoned && !Waiting(worlds[i].agents[d].core.local)
    requires forall k :: i <= k <= j ==> steps[k] != Crash(d)
    ensures d in worlds[j].agents && d in worlds[j + 1].agents && worlds[j + 1].agents[d].core.poisoned
    ensures worlds[j + 1].agents[d].core.local == worlds[i].agents[d].core.local
    ensures StepOf(steps[j], d) ==> worlds[j + 1].runs == worlds[j].runs
    decreases j - i
  {
    hide Next, Invariant, StepOf, Waiting;
    if i < j {
      PoisonedIdleNeverWrites(worlds, steps, i, j - 1, d);
    }
    InvariantHolds(worlds, steps, j);
    PoisonedStep(worlds[j], steps[j], worlds[j + 1], d);
  }

  // ---------------------------------------------------------------- an answer can be written

  /** Every typed approval was requested strictly before its expiry. */
  predicate WindowsOpen(p: Projection) {
    forall id :: id in p.approvals && p.approvals[id].window.Some? ==>
                   p.approvals[id].window.value.0 < p.approvals[id].window.value.1
  }

  lemma ApplyKeepsWindows(runId: string, p: Projection, kind: EventKind, sequence: nat)
    requires WindowsOpen(p) && Apply(runId, p, kind, sequence).Ok?
    ensures WindowsOpen(Apply(runId, p, kind, sequence).value)
  {
    if ActivityKind(kind) {
      ActivityKeepsControl(runId, p, kind, sequence);
    }
  }

  lemma {:induction false} ValidWindows(s: RunState)
    requires Valid(s)
    ensures WindowsOpen(s.projection)
    decreases |s.events|
  {
    hide Apply;
    if |s.events| > 1 {
      ValidWindows(Prior(s));
      ApplyKeepsWindows(s.runId, Prior(s).projection, s.events[|s.events| - 1].kind, |s.events|);
    }
  }

  /** A name longer than every name in use. */
  function FreshName(events: seq<Event>): string {
    if events == [] then "x"
    else
      var rest, last := FreshName(events[..|events| - 1]), events[|events| - 1].id;
      if last.Custom? then rest + last.name else rest
  }

  lemma {:induction false} FreshNameIsLonger(events: seq<Event>, i: nat)
    requires i < |events| && events[i].id.Custom?
    ensures |FreshName(events)| > |events[i].id.name|
  {
    var rest := events[..|events| - 1];
    FreshNameIsNotEmpty(rest);
    if i < |events| - 1 {
      FreshNameIsLonger(rest, i);
    }
  }

  lemma {:induction false} FreshNameIsNotEmpty(events: seq<Event>)
    ensures |FreshName(events)| > 0
  {
    if events != [] {
      FreshNameIsNotEmpty(events[..|events| - 1]);
    }
  }

  /** The denial of a pending approval at the first instant of its window, under a name nobody uses. */
  lemma Denial(s: RunState, id: string) returns (t: RunState)
    requires Valid(s) && Awaits(s, id)
    ensures Valid(t) && Extends(t, s) && ControlOnly(s, t) && |t.events| == |s.events| + 1
    ensures t.events[|s.events|].kind.ApprovalResolved? && t.events[|s.events|].kind.resolvedId == id
            && !t.events[|s.events|].kind.approved
    ensures ResolvedIn(t, id)
  {
    hide ApplyActivity, Valid;
    ValidWindows(s);
    var name := Custom(FreshName(s.events));
    var kind := ApprovalResolved(id, false, Some((s.projection.approvals[id].window.value.0, false)));
    forall i | 0 <= i < |s.events|
      ensures s.events[i].id != name
    {
      if s.events[i].id.Custom? {
        FreshNameIsLonger(s.events, i);
      }
    }
    AppendValid(s, name, kind);
    t := Append(s, name, kind).value;
    assert t.events == s.events + [Event(|s.events| + 1, name, kind)];
  }

  lemma StoreTakesDenial(s: RunState, t: RunState, authority: Option<Authority>, id: string, now: nat)
    requires Awaits(s, id) && Extends(t, s) && |t.events| == |s.events| + 1 && ResolvedIn(t, id)
    requires t.events[|s.events|].kind.ApprovalResolved? && t.events[|s.events|].kind.resolvedId == id
             && !t.events[|s.events|].kind.approved
    requires EnsureAuthority(s, authority, now).Ok?
    ensures Validate(s, LastSequence(s), t, authority, Some(id), now).Ok?
  {
    var e := t.events[|s.events|];
    assert Appended(s, t) == [e];
    assert !AppendsLeaseClaim(s, t);
    assert ValidateFence(s, t, authority, now).Ok?;
    assert ScanOne(s, id, now, Scan(0, false), e.kind) == Ok(Scan(1, false));
    assert ScanResolutions(s, id, now, Scan(0, false), [e]) == Ok(Scan(1, false));
  }

  lemma AnswerIsCommitted(w: World, d: nat) returns (step: Action, w': World)
    requires Invariant(w) && d in w.agents && w.agents[d].pending.None? && Answerable(w, w.agents[d].core)
    ensures Next(w, step, w') && StepOf(step, d) && w'.runs != w.runs
  {
    hide Validate, Valid, EnsureAuthority, ControlOnly;
    var core := w.agents[d].core;
    var id :| id in core.local.projection.approvals && Awaits(core.local, id);
    var denied := Denial(core.local, id);
    StoreTakesDenial(core.local, denied, core.authority, id, w.clock);
    step := Govern(d, denied, Some(id), Committed);
    w' := World(w.runs[denied.runId := denied], w.clock,
                w.agents[d := Agent(SettleApproval(core, denied, Some(id), Ok(())), None)]);
    assert w'.runs[denied.runId] == denied;
  }

  /**
   The exact condition, on what can be seen before the step: through the state of a poisoned driver some
   step can change a run if and only if a typed approval is pending in that state, it is the stored one,
   and its lease allows a write.
   */
  lemma PoisonedWritesExactly(w: World, d: nat)
    requires Invariant(w) && d in w.agents && w.agents[d].core.poisoned
    ensures (exists step, w' :: Next(w, step, w') && StepOf(step, d) && w'.runs != w.runs)
            <==> Answerable(w, w.agents[d].core)
  {
    hide Next, Answerable, StepOf, Invariant;
    if Answerable(w, w.agents[d].core) {
      PoisonedHasNothingPending(w, d);
      var step, w' := AnswerIsCommitted(w, d);
    } else {
      forall step, w' | Next(w, step, w') && StepOf(step, d)
        ensures w'.runs == w.runs
      {
        OwnStepIsNoCrash(step, d);
        PoisonedStep(w, step, w', d);
      }
    }
  }

  lemma PoisonedHasNothingPending(w: World, d: nat)
    requires Invariant(w) && d in w.agents && w.agents[d].core.poisoned
    ensures w.agents[d].pending.None?
  {
    assert AgentOk(w.runs, w.agents[d]);
  }

  lemma OwnStepIsNoCrash(step: Action, d: nat)
    requires StepOf(step, d)
    ensures step != Crash(d)
  {
  }

  // ---------------------------------------------------------------- what poisons a driver

  /**
   A transition poisons a driver if and only if the store failed it or held something else. Every error
   leaves the state and every run as they were; a success leaves exactly what the command makes of the
   state, in the driver and in the store, and returns its outcome.
   */
  lemma TransitionPoisonsExactly(core: Core, runs: Runs, requireAuthority: bool, c: Command, now: nat)
    requires Valid(core.local) && !core.poisoned
    ensures var (core', runs', result) := Transition(core, runs, requireAuthority, c, now);
            && (core'.poisoned <==> result.Err? && (result.error.StoreFailure? || result.error.StateMismatch?))
            && (result.Err? ==> core' == core.(poisoned := core'.poisoned) && runs' == runs)
            && (result.Ok? ==>
                  && Mutate(core.local, c) == Ok((core'.local, result.value)) && core' == core.(local := core'.local)
                  && LoadFrom(runs, core.local.runId) == Ok(core.local)
                  && runs' == runs[core.local.runId := core'.local])
  {
    hide Mutate, Validate, Valid, LastSequence;
    if Mutate(core.local, c).Ok? {
      CommandContinues(core.local, c);
    }
    if core.local.runId in runs && runs[core.local.runId] == core.local {
      assert runs == runs[core.local.runId := core.local];
    }
  }

  /** What the failing or differing store answered with. */
  lemma StoreAnswersAreReported(core: Core, runs: Runs, requireAuthority: bool, c: Command, now: nat)
    requires !core.poisoned && LoadFrom(runs, core.local.runId) != Ok(core.local)
    ensures Transition(core, runs, requireAuthority, c, now)
         == (core.(poisoned := true), runs,
             Err(if core.local.runId in runs then StateMismatch else StoreFailure(NotFound)))
  {
    hide Mutate, Swap, EnsureAuthority;
  }

  /** The steps that poison a driver: a swap not reported as committed, and a load that fails or differs. */
  predicate Poisons(w: World, step: Action, core: Core) {
    match step
    case Begin(_, _, _, loadFails) => loadFails || LoadFrom(w.runs, core.local.runId) != Ok(core.local)
    case Swapped(_, fate) => fate != Committed
    case Govern(d, candidate, approval, fate) =>
      && fate != Committed
      && !(fate == Refused && d in w.agents && GovernedSwap(w, step).Err?
           && DefiniteExpiry(core.local, candidate, approval, GovernedSwap(w, step).error))
    case _ => false
  }

  /** In every behaviour a step poisons the driver it goes through if and only if it is one of these. */
  lemma StepPoisonsExactly(w: World, step: Action, w': World, d: nat)
    requires Next(w, step, w') && d in w.agents && !w.agents[d].core.poisoned && step != Crash(d)
    ensures d in w'.agents
    ensures w'.agents[d].core.poisoned <==> StepOf(step, d) && Poisons(w, step, w.agents[d].core)
  {
    hide Mutate, Swap, Valid, EnsureAuthority, ControlOnly, Extends;
  }

  /** A driver whose swap was refused, lost or misreported answers every later call with Poisoned. */
  lemma PoisonedRefusesEverything(core: Core, runs: Runs, requireAuthority: bool, c: Command, now: nat)
    requires core.poisoned
    ensures Transition(core, runs, requireAuthority, c, now) == (core, runs, Err(Poisoned))
  {
  }

  // ---------------------------------------------------------------- a concrete history

  const FRESH := NewRun("s", "r", Sync).value
  const REQUEST := Event(2, Custom("ask"), ApprovalRequested("q", Some((0, 10))))
  const APPROVAL := Event(3, Custom("grant"), ApprovalResolved("q", true, Some((0, false))))

  /** A fresh run in which a typed approval was requested. */
  lemma Requested() returns (asked: RunState)
    ensures Valid(FRESH) && FRESH.runId == "r" && FRESH.mode == Sync
    ensures Valid(asked) && Extends(asked, FRESH) && asked.events == FRESH.events + [REQUEST]
    ensures asked.projection == ROOT.(approvals := map["q" := Approval(Some((0, 10)), Pending)], status := Paused,
                                      pauseReason := Some(ApprovalNeeded("q")))
  {
    hide ApplyActivity, Valid;
    NewRunValid("s", "r", Sync);
    AppendValid(FRESH, REQUEST.id, REQUEST.kind);
    asked := Append(FRESH, REQUEST.id, REQUEST.kind).value;
  }

  /** The same run once it was approved in time. */
  lemma Granted(asked: RunState) returns (granted: RunState)
    requires Valid(asked) && asked.events == FRESH.events + [REQUEST]
    requires asked.projection.approvals == map["q" := Approval(Some((0, 10)), Pending)]
    ensures Valid(granted) && Extends(granted, asked) && granted.events == asked.events + [APPROVAL]
    ensures granted.projection.approvals == map["q" := Approval(Some((0, 10)), Approved)]
  {
    hide ApplyActivity, Valid;
    assert !IdUsed(asked.events, APPROVAL.id);
    AppendValid(asked, APPROVAL.id, APPROVAL.kind);
    granted := Append(asked, APPROVAL.id, APPROVAL.kind).value;
  }

  lemma StoreTakesRequest(asked: RunState)
    requires Extends(asked, FRESH) && asked.events == FRESH.events + [REQUEST]
    ensures Swap(map["r" := FRESH], 1, asked, None, None, 0) == Ok(map["r" := asked])
  {
    assert Appended(FRESH, asked) == [REQUEST];
    assert ValidateFence(FRESH, asked, None, 0).Ok?;
    assert ValidateAppendOnly(FRESH, asked).Ok?;
    assert RejectResolutions(FRESH, Appended(FRESH, asked)).Ok?;
    assert Validate(FRESH, 1, asked, None, None, 0).Ok?;
    assert map["r" := FRESH]["r" := asked] == map["r" := asked];
  }

  lemma StoreTakesApproval(asked: RunState, granted: RunState)
    requires asked.runId == "r" && asked.projection.lease.None? && asked.events == FRESH.events + [REQUEST]
    requires Extends(granted, asked) && granted.events == asked.events + [APPROVAL]
    requires asked.projection.approvals == map["q" := Approval(Some((0, 10)), Pending)]
    requires granted.projection.approvals == map["q" := Approval(Some((0, 10)), Approved)]
    ensures Swap(map["r" := asked], 2, granted, None, Some("q"), 0) == Ok(map["r" := granted])
  {
    assert Appended(asked, granted) == [APPROVAL];
    assert ValidateFence(asked, granted, None, 0).Ok?;
    assert ValidateAppendOnly(asked, granted).Ok?;
    assert ScanOne(asked, "q", 0, Scan(0, false), APPROVAL.kind) == Ok(Scan(1, false));
    assert ScanResolutions(asked, "q", 0, Scan(0, false), [APPROVAL]) == Ok(Scan(1, false));
    assert Validate(asked, 2, granted, None, Some("q"), 0).Ok?;
    assert map["r" := asked]["r" := granted] == map["r" := granted];
  }

  /**
   The exception is real: a driver is poisoned while its approver waits for an answer, and the answer
   is still committed through its state.
   */
  lemma PoisonedApproverMayStillResolve() returns (worlds: seq<World>, steps: seq<Action>)
    ensures Behaviour(worlds, steps) && |steps| == 4
    ensures 0 in worlds[3].agents && worlds[3].agents[0].core.poisoned
    ensures StepOf(steps[3], 0) && worlds[4].runs != worlds[3].runs
    ensures History(worlds, steps, PairedUse)
    ensures "r" in worlds[4].runs && worlds[4].runs["r"].projection.approvals == map["q" := Approval(Some((0, 10)), Approved)]
  {
    hide Valid, Swap, Mutate, Written;
    var asked := Requested();
    var granted := Granted(asked);
    StoreTakesRequest(asked);
    StoreTakesApproval(asked, granted);
    var joined := World(map["r" := FRESH], 0, map[0 := Agent(Core(FRESH, false, None), None)]);
    var waiting := World(map["r" := asked], 0, map[0 := Agent(Core(asked, false, None), None)]);
    var poisoned := World(map["r" := asked], 0, map[0 := Agent(Core(asked, true, None), None)]);
    var resolved := World(map["r" := granted], 0, map[0 := Agent(Core(granted, true, None), None)]);
    steps := [Join(0, FRESH), Govern(0, asked, None, Committed), Begin(0, false, CompleteRun, true),
              Govern(0, granted, Some("q"), Committed)];
    worlds := [World(map[], 0, map[]), joined, waiting, poisoned, resolved];
    assert Next(worlds[0], steps[0], worlds[1]);
    assert Next(worlds[1], steps[1], worlds[2]);
    assert Next(worlds[2], steps[2], worlds[3]);
    assert Next(worlds[3], steps[3], worlds[4]);
    FreshIsWritten("s", "r", Sync, PairedUse);
  }
}

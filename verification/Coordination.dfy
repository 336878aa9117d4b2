/**
 Any number of drivers, crashing and restarting, sharing one store with clients that are not drivers
 at all. A driver's load and its swap are separate steps, so anything may happen in between; a swap
 may commit, be refused, be lost, or commit and still report an error. An approver attached to a
 driver shares its state and commits approvals between the driver's own transitions.
 */
module Coordination {
  import opened Wrappers
  import opened RunLog
  import opened RunInvariants
  import opened RunCommands
  import opened CommandFacts
  import opened TerminalProtocol
  import opened DurableStore
  import opened Driver
  import opened Approver

  datatype Agent = Agent(core: Core, pending: Option<RunState>)

  datatype World = World(runs: Runs, clock: nat, agents: map<nat, Agent>)

  datatype Fate = Committed | CommittedButReportedError | Refused | Lost

  datatype Action =
    | Tick(now: nat)
    | Join(agent: nat, state: RunState)
    | Begin(agent: nat, requireAuthority: bool, command: Command, loadFails: bool)
    | Swapped(agent: nat, fate: Fate)
    | Govern(agent: nat, candidate: RunState, approval: Option<string>, fate: Fate)
    | Bind(agent: nat, ownerId: string, leaseId: string)
    | Crash(agent: nat)
    | CreateRun(state: RunState)
    | ForeignSwap(expected: nat, replacement: RunState, authority: Option<Authority>, approval: Option<string>)

  /** The store was written, whatever the writer was told. */
  predicate Effective(fate: Fate) {
    fate == Committed || fate == CommittedButReportedError
  }

  // ---------------------------------------------------------------- steps

  /** A joining driver compared its state with the store at some earlier moment, or just created it. */
  ghost predicate Joins(w: World, step: Action, w': World)
    requires step.Join?
  {
    && step.agent !in w.agents
    && Valid(step.state) && step.state.mode == Sync
    && (step.state.runId in w.runs ==> Extends(w.runs[step.state.runId], step.state))
    && w' == w.(runs := if step.state.runId in w.runs then w.runs else w.runs[step.state.runId := step.state],
                agents := w.agents[step.agent := Agent(Core(step.state, false, None), None)])
  }

  ghost predicate Begins(w: World, step: Action, w': World)
    requires step.Begin?
  {
    && step.agent in w.agents && w.agents[step.agent].pending.None?
    && var core := w.agents[step.agent].core;
    && var loaded := if step.loadFails then Err(Io) else LoadFrom(w.runs, core.local.runId);
    && var next := match Prepare(core, loaded, step.requireAuthority, step.command, w.clock)
                   case Declined(core', _) => Agent(core', None)
                   case NoChange(_) => Agent(core, None)
                   case Candidate(candidate, _) => Agent(core, Some(candidate));
    && w' == w.(agents := w.agents[step.agent := next])
  }

  function SwapOf(w: World, agent: nat): Result<Runs, StoreError>
    requires agent in w.agents && w.agents[agent].pending.Some?
  {
    var core := w.agents[agent].core;
    Swap(w.runs, LastSequence(core.local), w.agents[agent].pending.value, core.authority, None, w.clock)
  }

  ghost predicate Swaps(w: World, step: Action, w': World)
    requires step.Swapped?
  {
    && step.agent in w.agents && w.agents[step.agent].pending.Some?
    && var core := w.agents[step.agent].core;
    && var candidate := w.agents[step.agent].pending.value;
    && var swapped := SwapOf(w, step.agent);
    && (Effective(step.fate) ==> swapped.Ok?)
    && (step.fate == Refused ==> swapped.Err?)
    && var reported := if step.fate == Committed then Ok(()) else Err(Io);
    && var runs := if Effective(step.fate) then swapped.value else w.runs;
    && w' == World(runs, w.clock, w.agents[step.agent := Agent(Settle(core, candidate, reported), None)])
  }

  function GovernedSwap(w: World, step: Action): Result<Runs, StoreError>
    requires step.Govern? && step.agent in w.agents
  {
    var core := w.agents[step.agent].core;
    Swap(w.runs, LastSequence(core.local), step.candidate, core.authority, step.approval, w.clock)
  }

  /**
   The approver attached to a driver commits a candidate made of control events. It holds the driver's
   state meanwhile, so no transition of that driver is under way. A request is only made on a driver that
   is not poisoned; the resolution of an earlier request does not look at the flag again.
   */
  ghost predicate Governs(w: World, step: Action, w': World)
    requires step.Govern?
  {
    && step.agent in w.agents && w.agents[step.agent].pending.None?
    && var core := w.agents[step.agent].core;
    && Valid(step.candidate) && Extends(step.candidate, core.local) && ControlOnly(core.local, step.candidate)
    && (step.approval.None? ==> !core.poisoned)
    && var swapped := GovernedSwap(w, step);
    && (Effective(step.fate) ==> swapped.Ok?)
    && (step.fate == Refused ==> swapped.Err?)
    && var reported := if step.fate == Committed then Ok(())
                       else if step.fate == Refused then Err(swapped.error) else Err(Io);
    && w' == World(if Effective(step.fate) then swapped.value else w.runs, w.clock,
                   w.agents[step.agent := Agent(SettleApproval(core, step.candidate, step.approval, reported), None)])
  }

  ghost predicate Binds(w: World, step: Action, w': World)
    requires step.Bind?
  {
    && step.agent in w.agents
    && var core := w.agents[step.agent].core;
    && var authority := Authority(step.ownerId, step.leaseId);
    && ActiveLease(core.local, w.clock).Some? && Holds(ActiveLease(core.local, w.clock).value, authority)
    && w.agents[step.agent].pending.None?
    && w' == w.(agents := w.agents[step.agent := Agent(core.(authority := Some(authority)), None)])
  }

  ghost predicate Next(w: World, step: Action, w': World) {
    match step
    case Tick(now) => w.clock <= now && w' == w.(clock := now)
    case Join(_, _) => Joins(w, step, w')
    case Begin(_, _, _, _) => Begins(w, step, w')
    case Swapped(_, _) => Swaps(w, step, w')
    case Govern(_, _, _, _) => Governs(w, step, w')
    case Bind(_, _, _) => Binds(w, step, w')
    case Crash(agent) => agent in w.agents && w' == w.(agents := w.agents - {agent})
    case CreateRun(state) =>
      Valid(state) && state.runId !in w.runs && w' == w.(runs := w.runs[state.runId := state])
    case ForeignSwap(expected, replacement, authority, approval) =>
      && Valid(replacement)
      && var swapped := Swap(w.runs, expected, replacement, authority, approval, w.clock);
      && w' == w.(runs := if swapped.Ok? then swapped.value else w.runs)
  }

  /** A run of the whole system: `worlds[i]` becomes `worlds[i + 1]` by `steps[i]`. */
  ghost predicate Behaviour(worlds: seq<World>, steps: seq<Action>) {
    && |worlds| == |steps| + 1
    && worlds[0].runs == map[] && worlds[0].agents == map[]
    && forall i :: 0 <= i < |steps| ==> Next(worlds[i], steps[i], worlds[i + 1])
  }

  // ---------------------------------------------------------------- the invariant

  ghost predicate RunsOk(runs: Runs) {
    forall id :: id in runs ==> Valid(runs[id]) && runs[id].runId == id
  }

  /** The driver's log is a prefix of the stored one, and its candidate properly extends its own. */
  ghost predicate AgentOk(runs: Runs, agent: Agent) {
    var local := agent.core.local;
    && Valid(local) && local.runId in runs && Extends(runs[local.runId], local)
    && (agent.core.poisoned ==> agent.pending.None?)
    && (agent.pending.Some? ==>
          && Valid(agent.pending.value) && Extends(agent.pending.value, local)
          && |local.events| < |agent.pending.value.events|)
  }

  ghost predicate Invariant(w: World) {
    RunsOk(w.runs) && forall d :: d in w.agents ==> AgentOk(w.runs, w.agents[d])
  }

  /** Logs only grow. */
  ghost predicate Grows(runs: Runs, runs': Runs) {
    forall id :: id in runs ==> id in runs' && Extends(runs'[id], runs[id])
  }

  lemma SwapGrows(runs: Runs, expected: nat, replacement: RunState, authority: Option<Authority>, approval: Option<string>, now: nat)
    requires RunsOk(runs) && Valid(replacement)
    requires Swap(runs, expected, replacement, authority, approval, now).Ok?
    ensures var runs' := Swap(runs, expected, replacement, authority, approval, now).value;
            RunsOk(runs') && Grows(runs, runs')
            && runs' == runs[replacement.runId := replacement]
  {
    var current := runs[replacement.runId];
    FirstEventStarts(current);
    FirstEventStarts(replacement);
    SameMode(current, replacement);
  }

  lemma SameMode(s: RunState, t: RunState)
    requires Valid(s) && Valid(t) && s.events <= t.events && s.sessionId == t.sessionId
    ensures s.mode == t.mode
  {
    StartRecordsMode(s);
    StartRecordsMode(t);
    assert s.events[0] == t.events[0];
  }

  lemma {:induction false} StartRecordsMode(s: RunState)
    requires Valid(s)
    ensures |s.events| >= 1 && s.events[0].kind == RunStarted(s.sessionId, s.mode)
    decreases |s.events|
  {
    if |s.events| > 1 {
      StartRecordsMode(Prior(s));
      assert s.events[0] == Prior(s).events[0];
    }
  }

  lemma AgentStaysOk(runs: Runs, runs': Runs, agent: Agent)
    requires AgentOk(runs, agent) && Grows(runs, runs')
    ensures AgentOk(runs', agent)
  {
    ExtendsTrans(agent.core.local, runs[agent.core.local.runId], runs'[agent.core.local.runId]);
  }

  lemma PreparedIsOk(w: World, step: Action)
    requires Invariant(w) && step.Begin? && step.agent in w.agents
    ensures var core := w.agents[step.agent].core;
            var loaded := if step.loadFails then Err(Io) else LoadFrom(w.runs, core.local.runId);
            match Prepare(core, loaded, step.requireAuthority, step.command, w.clock)
            case Candidate(candidate, _) =>
              && loaded == Ok(core.local) && !core.poisoned
              && Valid(candidate) && Extends(candidate, core.local)
              && |core.local.events| < |candidate.events|
            case Declined(core', _) => core'.local == core.local && (core.poisoned ==> core'.poisoned)
            case NoChange(_) => true
  {
    hide Mutate;
    var core := w.agents[step.agent].core;
    if Mutate(core.local, step.command).Ok? {
      CommandContinues(core.local, step.command);
      var t := Mutate(core.local, step.command).value.0;
      if |t.events| == |core.local.events| {
        EqualLengthExtensionIsEqual(t, core.local);
      }
    }
  }

  /** A swap that names the last sequence of a prefix of the stored log finds exactly that prefix. */
  lemma SwapFindsLocal(
    runs: Runs, local: RunState, candidate: RunState, authority: Option<Authority>, approval: Option<string>, now: nat)
    requires RunsOk(runs) && Valid(local) && local.runId in runs && Extends(runs[local.runId], local)
    requires candidate.runId == local.runId
    requires Swap(runs, LastSequence(local), candidate, authority, approval, now).Ok?
    ensures runs[local.runId] == local
    ensures Swap(runs, LastSequence(local), candidate, authority, approval, now).value == runs[local.runId := candidate]
  {
    hide ValidateFence, ValidateAppendOnly, ValidateApproval, RejectResolutions, Valid;
    ValidSequences(runs[local.runId]);
    ValidSequences(local);
    EqualLengthExtensionIsEqual(runs[local.runId], local);
  }

  /** A swap that the store accepts finds exactly the state the driver mutated. */
  lemma AcceptedSwapIsExact(w: World, agent: nat)
    requires Invariant(w) && agent in w.agents && w.agents[agent].pending.Some? && SwapOf(w, agent).Ok?
    ensures var core := w.agents[agent].core;
            && core.local.runId in w.runs && w.runs[core.local.runId] == core.local
            && SwapOf(w, agent).value == w.runs[core.local.runId := w.agents[agent].pending.value]
  {
    hide Swap, Valid;
    var core := w.agents[agent].core;
    SwapFindsLocal(w.runs, core.local, w.agents[agent].pending.value, core.authority, None, w.clock);
  }

  /** So does one the store accepts from the approver that shares the driver's state. */
  lemma AcceptedApprovalIsExact(w: World, step: Action)
    requires Invariant(w) && step.Govern? && step.agent in w.agents && GovernedSwap(w, step).Ok?
    requires Extends(step.candidate, w.agents[step.agent].core.local)
    ensures var core := w.agents[step.agent].core;
            && core.local.runId in w.runs && w.runs[core.local.runId] == core.local
            && GovernedSwap(w, step).value == w.runs[core.local.runId := step.candidate]
  {
    hide Swap, Valid;
    var core := w.agents[step.agent].core;
    SwapFindsLocal(w.runs, core.local, step.candidate, core.authority, step.approval, w.clock);
  }

  lemma JoinKeepsInvariant(w: World, step: Action, w': World)
    requires Invariant(w) && step.Join? && Joins(w, step, w')
    ensures Invariant(w') && Grows(w.runs, w'.runs)
  {
    hide Valid;
    forall x | x in w'.agents
      ensures AgentOk(w'.runs, w'.agents[x])
    {
      if x != step.agent {
        AgentStaysOk(w.runs, w'.runs, w.agents[x]);
      }
    }
  }

  lemma NextKeepsInvariant(w: World, step: Action, w': World)
    requires Invariant(w) && Next(w, step, w')
    ensures Invariant(w') && Grows(w.runs, w'.runs)
  {
    hide Prepare, Swap, Valid;
    match step
    case Join(_, _) => JoinKeepsInvariant(w, step, w');
    case Begin(_, _, _, _) => PreparedIsOk(w, step);
    case Swapped(d, fate) => SwappedKeepsInvariant(w, step, w');
    case Govern(_, _, _, _) => GovernKeepsInvariant(w, step, w');
    case CreateRun(_) => GrowthKeepsInvariant(w, w');
    case ForeignSwap(expected, replacement, authority, approval) =>
      if Swap(w.runs, expected, replacement, authority, approval, w.clock).Ok? {
        SwapGrows(w.runs, expected, replacement, authority, approval, w.clock);
      }
      GrowthKeepsInvariant(w, w');
    case _ =>
  }

  lemma GrowthKeepsInvariant(w: World, w': World)
    requires Invariant(w) && w'.agents == w.agents && RunsOk(w'.runs) && Grows(w.runs, w'.runs)
    ensures Invariant(w')
  {
    forall x | x in w'.agents
      ensures AgentOk(w'.runs, w'.agents[x])
    {
      AgentStaysOk(w.runs, w'.runs, w.agents[x]);
    }
  }

  lemma SwappedKeepsInvariant(w: World, step: Action, w': World)
    requires Invariant(w) && step.Swapped? && Swaps(w, step, w')
    ensures Invariant(w') && Grows(w.runs, w'.runs)
  {
    var d := step.agent;
    var agent := w.agents[d];
    if Effective(step.fate) {
      AcceptedSwapIsExact(w, d);
      SwapGrows(w.runs, LastSequence(agent.core.local), agent.pending.value, agent.core.authority, None, w.clock);
    }
    forall x | x in w'.agents
      ensures AgentOk(w'.runs, w'.agents[x])
    {
      if x != d {
        AgentStaysOk(w.runs, w'.runs, w.agents[x]);
      } else {
        AgentStaysOk(w.runs, w'.runs, Agent(agent.core, None));
      }
    }
  }

  lemma GovernKeepsInvariant(w: World, step: Action, w': World)
    requires Invariant(w) && step.Govern? && Governs(w, step, w')
    ensures Invariant(w') && Grows(w.runs, w'.runs)
  {
    hide Swap, Valid, ControlOnly, DefiniteExpiry;
    var core := w.agents[step.agent].core;
    if Effective(step.fate) {
      AcceptedApprovalIsExact(w, step);
      SwapGrows(w.runs, LastSequence(core.local), step.candidate, core.authority, step.approval, w.clock);
    }
    forall x | x in w'.agents
      ensures AgentOk(w'.runs, w'.agents[x])
    {
      if x != step.agent {
        AgentStaysOk(w.runs, w'.runs, w.agents[x]);
      } else {
        AgentStaysOk(w.runs, w'.runs, Agent(core, None));
      }
    }
  }

  lemma {:induction false} InvariantHolds(worlds: seq<World>, steps: seq<Action>, i: nat)
    requires Behaviour(worlds, steps) && i < |worlds|
    ensures Invariant(worlds[i])
    decreases i
  {
    hide Next, AgentOk;
    if i > 0 {
      InvariantHolds(worlds, steps, i - 1);
      NextKeepsInvariant(worlds[i - 1], steps[i - 1], worlds[i]);
    }
  }

  // ---------------------------------------------------------------- no lost update

  /**
   No lost update: in every behaviour, a swap that takes effect, whether or not it was reported as
   successful, replaces exactly the state its driver had loaded and mutated, and touches no other run.
   */
  lemma NoLostUpdate(worlds: seq<World>, steps: seq<Action>, i: nat)
    requires Behaviour(worlds, steps) && i < |steps| && steps[i].Swapped? && Effective(steps[i].fate)
    ensures steps[i].agent in worlds[i].agents && worlds[i].agents[steps[i].agent].pending.Some?
    ensures var agent := worlds[i].agents[steps[i].agent];
            var id := agent.core.local.runId;
            && id in worlds[i].runs
            && worlds[i].runs[id] == agent.core.local
            && worlds[i + 1].runs == worlds[i].runs[id := agent.pending.value]
            && Extends(agent.pending.value, worlds[i].runs[id])
  {
    hide Valid, Swap, Settle;
    InvariantHolds(worlds, steps, i);
    assert Next(worlds[i], steps[i], worlds[i + 1]);
    AcceptedSwapIsExact(worlds[i], steps[i].agent);
  }

  /** The same of an approver's swap: it replaces exactly the driver's own state by its candidate. */
  lemma NoLostApproval(worlds: seq<World>, steps: seq<Action>, i: nat)
    requires Behaviour(worlds, steps) && i < |steps| && steps[i].Govern? && Effective(steps[i].fate)
    ensures steps[i].agent in worlds[i].agents
    ensures var local := worlds[i].agents[steps[i].agent].core.local;
            && local.runId in worlds[i].runs
            && worlds[i].runs[local.runId] == local
            && worlds[i + 1].runs == worlds[i].runs[local.runId := steps[i].candidate]
            && Extends(steps[i].candidate, local)
  {
    hide Valid, Swap, SettleApproval, ControlOnly;
    InvariantHolds(worlds, steps, i);
    assert Next(worlds[i], steps[i], worlds[i + 1]);
    AcceptedApprovalIsExact(worlds[i], steps[i]);
  }

  /** A driver that has not failed still agrees with a prefix of the stored log, at every moment. */
  lemma LocalLogIsAPrefix(worlds: seq<World>, steps: seq<Action>, i: nat, d: nat)
    requires Behaviour(worlds, steps) && i < |worlds| && d in worlds[i].agents
    ensures var local := worlds[i].agents[d].core.local;
            local.runId in worlds[i].runs && local.events <= worlds[i].runs[local.runId].events
  {
    InvariantHolds(worlds, steps, i);
    assert AgentOk(worlds[i].runs, worlds[i].agents[d]);
  }

  // ---------------------------------------------------------------- logs only grow

  lemma {:induction false} RunsPersist(worlds: seq<World>, steps: seq<Action>, i: nat, j: nat)
    requires Behaviour(worlds, steps) && i <= j < |worlds|
    ensures Grows(worlds[i].runs, worlds[j].runs)
    decreases j - i
  {
    hide Next, Invariant;
    if i < j {
      RunsPersist(worlds, steps, i, j - 1);
      InvariantHolds(worlds, steps, j - 1);
      NextKeepsInvariant(worlds[j - 1], steps[j - 1], worlds[j]);
      forall id | id in worlds[i].runs
        ensures id in worlds[j].runs && Extends(worlds[j].runs[id], worlds[i].runs[id])
      {
        ExtendsTrans(worlds[i].runs[id], worlds[j - 1].runs[id], worlds[j].runs[id]);
      }
    }
  }
}

/**
 * Waiting for a workspace (src/remote/workspaceStateMachine.ts, and `waitForWorkspaceReady`
 * and `resolveAgent` of src/remote/remote.ts). What users and services answer while one
 * workspace is being processed is the parameter `Answers`; meanwhile only events arrive.
 */
module Readiness {
  import opened Basics

  datatype Status = Running | Stopped | FailedBuild | Pending | Starting | Stopping | Deleted | Deleting | Canceled | Canceling

  datatype AgentStatus = AgentConnecting | AgentConnected | AgentDisconnected | AgentTimeout

  datatype Lifecycle =
    Ready | StartingUp | Created | StartError | StartTimeout | ShuttingDown | Off | ShutdownError | ShutdownTimeout

  /** `blocksLogin`: some startup script blocks logins. */
  datatype Agent = Agent(id: string, name: string, status: AgentStatus, lifecycle: Lifecycle, blocksLogin: bool)

  datatype Workspace = Workspace(status: Status, outdated: bool, resources: seq<seq<Agent>>)

  datatype StartupMode = NoMode | Start | Update

  datatype Chosen = Chosen(id: string, name: string)

  /** `prompts` and `updates` count the start prompts shown and the updates attempted. */
  datatype Machine = Machine(
    startupMode: StartupMode,
    agent: Option<Chosen>,
    workspace: Option<Workspace>,
    prompts: nat,
    updates: nat)

  /**
   * The answer to the start prompt, the workspace an update returns (`None` when it fails or
   * is cancelled), the position picked in the agent list, and whether a start or a log stream
   * throws.
   */
  datatype Answers = Answers(choice: Option<StartupMode>, updated: Option<Workspace>, pick: Option<nat>, throws: bool)

  datatype Outcome = IsReady | Waiting | Thrown

  function Agents(w: Workspace): seq<Agent> {
    Flatten(w.resources)
  }

  function Named(agents: seq<Agent>, name: string): seq<Agent> {
    if agents == [] then [] else (if agents[0].name == name then [agents[0]] else []) + Named(agents[1..], name)
  }

  /** `agents.find` by id. */
  function FindAgent(agents: seq<Agent>, id: string): Option<Agent> {
    if agents == [] then None else if agents[0].id == id then Some(agents[0]) else FindAgent(agents[1..], id)
  }

  /** `maybeAskAgent`: `Err` is its error, `Ok(None)` a declined choice. */
  function MaybeAskAgent(agents: seq<Agent>, filter: string, pick: Option<nat>): Result<Option<Agent>, ()> {
    var filtered := if filter != "" then Named(agents, filter) else agents;
    if filtered == [] then Err(())
    else if |filtered| == 1 then Ok(Some(filtered[0]))
    else if pick.Some? && pick.value < |filtered| then Ok(Some(filtered[pick.value]))
    else Ok(None)
  }

  // ----- one workspace -----

  /** `confirmStartOrUpdate`: the update button is offered for outdated workspaces only. */
  function Confirmed(w: Workspace, a: Answers): Option<StartupMode> {
    if a.choice == Some(Update) && !w.outdated then None
    else if a.choice == Some(NoMode) then None
    else a.choice
  }

  /** `maybeUpdate`: the mode goes back to start before the attempt. */
  function MaybeUpdate(m: Machine, a: Answers): (Machine, Option<Workspace>) {
    if !m.startupMode.Update? then (m, None)
    else
      var t := m.(startupMode := Start, updates := m.updates + 1);
      if a.updated.None? then (t, None) else (t.(workspace := a.updated), a.updated)
  }

  function ProcessRunning(m: Machine, w: Workspace, filter: string, a: Answers): (Machine, Outcome) {
    var (t, updated) := MaybeUpdate(m, a);
    if updated.None? then ProcessAgent(t, w, filter, a)
    else if !updated.value.status.Running? then (t.(agent := None), Waiting)
    else ProcessAgent(t.(agent := None), updated.value, filter, a)
  }

  function ProcessStopped(m: Machine, w: Workspace, filter: string, a: Answers): (Machine, Outcome) {
    var asked := if m.startupMode.NoMode? then m.(prompts := m.prompts + 1) else m;
    var mode := if m.startupMode.NoMode? then Confirmed(w, a) else Some(m.startupMode);
    if mode.None? then (asked, Thrown)
    else
      var (t, updated) := MaybeUpdate(asked.(startupMode := mode.value), a);
      if updated.None? then (t, if a.throws then Thrown else Waiting)
      else if !updated.value.status.Running? then (t.(agent := None), Waiting)
      else ProcessAgent(t.(agent := None), updated.value, filter, a)
  }

  function ProcessAgent(m: Machine, w: Workspace, filter: string, a: Answers): (Machine, Outcome) {
    var agents := Agents(w);
    if m.agent.Some? then (m, Observe(agents, m.agent.value, a))
    else
      var got := MaybeAskAgent(agents, filter, a.pick);
      if got.Err? || got.value.None? then (m, Thrown)
      else
        var chosen := Chosen(got.value.value.id, got.value.value.name);
        (m.(agent := Some(chosen)), Observe(agents, chosen, a))
  }

  function Observe(agents: seq<Agent>, chosen: Chosen, a: Answers): Outcome {
    var found := FindAgent(agents, chosen.id);
    if found.None? then Thrown
    else
      match found.value.status
      case AgentConnecting => Waiting
      case AgentDisconnected => Thrown
      case AgentTimeout => Waiting
      case AgentConnected => ObserveLifecycle(found.value, a)
  }

  function ObserveLifecycle(agent: Agent, a: Answers): Outcome {
    match agent.lifecycle
    case Ready => IsReady
    case StartingUp => if !agent.blocksLogin then IsReady else if a.throws then Thrown else Waiting
    case Created => Waiting
    case StartError => IsReady
    case StartTimeout => IsReady
    case _ => Thrown
  }

  function Process(m: Machine, w: Workspace, filter: string, a: Answers): (Machine, Outcome) {
    var s := m.(workspace := Some(w));
    match w.status
    case Running => ProcessRunning(s, w, filter, a)
    case Stopped => ProcessStopped(s, w, filter, a)
    case FailedBuild => ProcessStopped(s, w, filter, a)
    case Pending => (s.(agent := None), if a.throws then Thrown else Waiting)
    case Starting => (s.(agent := None), if a.throws then Thrown else Waiting)
    case Stopping => (s.(agent := None), if a.throws then Thrown else Waiting)
    case _ => (s, Thrown)
  }

  // ----- the class -----

  class WorkspaceStateMachine {
    const filter: string
    var startupMode: StartupMode
    var agent: Option<Chosen>
    var workspace: Option<Workspace>
    ghost var prompts: nat
    ghost var updates: nat

    ghost function View(): Machine
      reads this
    {
      Machine(startupMode, agent, workspace, prompts, updates)
    }

    constructor (filter: string, startupMode: StartupMode)
      ensures this.filter == filter && View() == Machine(startupMode, None, None, 0, 0)
    {
      this.filter, this.startupMode, agent, workspace, prompts, updates := filter, startupMode, None, None, 0, 0;
    }

    method ProcessWorkspace(event: Workspace, a: Answers) returns (outcome: Outcome)
      modifies this
      ensures (View(), outcome) == Process(old(View()), event, filter, a)
    {
      workspace := Some(event);
      var w := event;
      match event.status
      case Running =>
        var updated := UpdateOnce(a);
        if updated.Some? {
          w := updated.value;
          agent := None;
          if !w.status.Running? { return Waiting; }
        }
        outcome := FindReadyAgent(w, a);
      case Stopped =>
        outcome := StartOrUpdate(event, a);
      case FailedBuild =>
        outcome := StartOrUpdate(event, a);
      case Pending =>
        agent := None;
        outcome := if a.throws then Thrown else Waiting;
      case Starting =>
        agent := None;
        outcome := if a.throws then Thrown else Waiting;
      case Stopping =>
        agent := None;
        outcome := if a.throws then Thrown else Waiting;
      case _ =>
        outcome := Thrown;
    }

    method UpdateOnce(a: Answers) returns (updated: Option<Workspace>)
      modifies this
      ensures (View(), updated) == MaybeUpdate(old(View()), a)
    {
      if !startupMode.Update? { return None; }
      startupMode := Start;
      updates := updates + 1;
      if a.updated.Some? {
        workspace := a.updated;
      }
      updated := a.updated;
    }

    method StartOrUpdate(event: Workspace, a: Answers) returns (outcome: Outcome)
      modifies this
      ensures (View(), outcome) == ProcessStopped(old(View()), event, filter, a)
    {
      if startupMode.NoMode? {
        prompts := prompts + 1;
        var choice := Confirmed(event, a);
        if choice.None? { return Thrown; }
        startupMode := choice.value;
      }
      var updated := UpdateOnce(a);
      if updated.Some? {
        agent := None;
        if !updated.value.status.Running? { return Waiting; }
        outcome := FindReadyAgent(updated.value, a);
      } else {
        outcome := if a.throws then Thrown else Waiting;
      }
    }

    method FindReadyAgent(w: Workspace, a: Answers) returns (outcome: Outcome)
      modifies this
      ensures (View(), outcome) == ProcessAgent(old(View()), w, filter, a)
    {
      var agents := Agents(w);
      if agent.None? {
        var got := MaybeAskAgent(agents, filter, a.pick);
        if got.Err? || got.value.None? { return Thrown; }
        agent := Some(Chosen(got.value.value.id, got.value.value.name));
      }
      outcome := Observe(agents, agent.value, a);
    }
  }

  // ----- what processing guarantees -----

  /** The chosen agent is one of the current workspace's. */
  predicate AgentPresent(m: Machine) {
    && m.agent.Some? && m.workspace.Some?
    && FindAgent(Agents(m.workspace.value), m.agent.value.id).Some?
  }

  predicate Usable(agent: Agent) {
    && agent.status.AgentConnected?
    && (agent.lifecycle.Ready? || agent.lifecycle.StartError? || agent.lifecycle.StartTimeout?
        || (agent.lifecycle.StartingUp? && !agent.blocksLogin))
  }

  /** The current workspace runs, and its chosen agent can take a connection. */
  predicate ReadyNow(m: Machine) {
    && AgentPresent(m) && m.workspace.value.status.Running?
    && Usable(FindAgent(Agents(m.workspace.value), m.agent.value.id).value)
  }

  lemma AgentReady(m: Machine, w: Workspace, filter: string, a: Answers)
    requires m.workspace == Some(w)
    ensures var (t, outcome) := ProcessAgent(m, w, filter, a);
            && t.workspace == Some(w) && t.startupMode == m.startupMode
            && t.prompts == m.prompts && t.updates == m.updates
            && (outcome.IsReady? <==> AgentPresent(t) && Usable(FindAgent(Agents(w), t.agent.value.id).value))
  {
  }

  lemma StoppedReady(m: Machine, w: Workspace, filter: string, a: Answers)
    requires m.workspace == Some(w) && !w.status.Running?
    ensures ProcessStopped(m, w, filter, a).1.IsReady? <==> ReadyNow(ProcessStopped(m, w, filter, a).0)
  {
    var asked := if m.startupMode.NoMode? then m.(prompts := m.prompts + 1) else m;
    var mode := if m.startupMode.NoMode? then Confirmed(w, a) else Some(m.startupMode);
    if mode.Some? {
      var (t, updated) := MaybeUpdate(asked.(startupMode := mode.value), a);
      if updated.Some? { AgentReady(t.(agent := None), updated.value, filter, a); }
    }
  }

  /** Processing reports ready exactly if the workspace it leaves current is ready. */
  lemma ReadyExactly(m: Machine, w: Workspace, filter: string, a: Answers)
    ensures Process(m, w, filter, a).1.IsReady? <==> ReadyNow(Process(m, w, filter, a).0)
  {
    var s := m.(workspace := Some(w));
    if w.status.Running? {
      var (t, updated) := MaybeUpdate(s, a);
      if updated.Some? { AgentReady(t.(agent := None), updated.value, filter, a); } else { AgentReady(t, w, filter, a); }
    } else if w.status.Stopped? || w.status.FailedBuild? {
      StoppedReady(s, w, filter, a);
    }
  }

  /** While no choice was made nothing was asked; while an update is due none was attempted. */
  predicate OnceEach(m: Machine) {
    && m.prompts <= 1 && m.updates <= 1
    && (m.startupMode.NoMode? ==> m.prompts == 0)
    && (!m.startupMode.Start? ==> m.updates == 0)
  }

  lemma ProcessOnce(m: Machine, w: Workspace, filter: string, a: Answers)
    requires OnceEach(m)
    ensures var (t, outcome) := Process(m, w, filter, a);
            t.prompts <= 1 && t.updates <= 1 && (!outcome.Thrown? ==> OnceEach(t))
  {
    var s := m.(workspace := Some(w));
    if w.status.Running? {
      var (t, updated) := MaybeUpdate(s, a);
      if updated.Some? { AgentReady(t.(agent := None), updated.value, filter, a); } else { AgentReady(t, w, filter, a); }
    } else if w.status.Stopped? || w.status.FailedBuild? {
      StoppedOnce(s, w, filter, a);
    }
  }

  lemma StoppedOnce(m: Machine, w: Workspace, filter: string, a: Answers)
    requires OnceEach(m) && m.workspace == Some(w)
    ensures var (t, outcome) := ProcessStopped(m, w, filter, a);
            t.prompts <= 1 && t.updates <= 1 && (!outcome.Thrown? ==> OnceEach(t))
  {
    var asked := if m.startupMode.NoMode? then m.(prompts := m.prompts + 1) else m;
    var mode := if m.startupMode.NoMode? then Confirmed(w, a) else Some(m.startupMode);
    if mode.Some? {
      var (t, updated) := MaybeUpdate(asked.(startupMode := mode.value), a);
      if updated.Some? { AgentReady(t.(agent := None), updated.value, filter, a); }
    }
  }

  // ----- the wait -----

  datatype End = Resolved(workspace: Workspace) | Rejected

  /**
   * `running` is the workspace being processed; `delivered` and `processed` are the last
   * workspace that arrived and the last one whose processing began.
   */
  datatype Wait = Wait(
    machine: Machine,
    running: Option<Workspace>,
    pending: Option<Workspace>,
    end: Option<End>,
    delivered: Workspace,
    processed: Workspace)

  datatype Event = Deliver(w: Workspace) | Finish(a: Answers)

  function Begin(machine: Machine, w: Workspace): Wait {
    Wait(machine, Some(w), None, None, w, w)
  }

  /** An event of the monitor; the subscription ends with the wait. */
  function Arrive(s: Wait, w: Workspace): Wait {
    if s.end.Some? then s
    else if s.running.Some? then s.(pending := Some(w), delivered := w)
    else s.(running := Some(w), pending := None, delivered := w, processed := w)
  }

  /** Processing comes to its end: settle, or go on with the last workspace that arrived. */
  function Complete(s: Wait, filter: string, a: Answers): Wait {
    if s.running.None? then s
    else
      var (m, outcome) := Process(s.machine, s.running.value, filter, a);
      var t := s.(machine := m, running := None);
      match outcome
      case IsReady =>
        t.(end := Some(Resolved(if m.workspace.Some? then m.workspace.value else s.running.value)))
      case Thrown => t.(end := Some(Rejected))
      case Waiting =>
        if s.pending.None? then t
        else t.(running := s.pending, pending := None, processed := s.pending.value)
  }

  function Step(s: Wait, filter: string, e: Event): Wait {
    match e
    case Deliver(w) => Arrive(s, w)
    case Finish(a) => Complete(s, filter, a)
  }

  function Run(s: Wait, filter: string, events: seq<Event>): Wait
    decreases |events|
  {
    if events == [] then s else Run(Step(s, filter, events[0]), filter, events[1..])
  }

  /** Nothing that arrived is forgotten while the wait goes on. */
  predicate UpToDate(s: Wait) {
    && (s.end.None? && s.running.None? ==> s.pending.None? && s.processed == s.delivered)
    && (s.running.Some? ==> s.processed == s.running.value
                            && s.delivered == if s.pending.Some? then s.pending.value else s.running.value)
    && (s.end.Some? ==> s.running.None?)
  }

  predicate Sound(s: Wait) {
    && UpToDate(s) && s.machine.prompts <= 1 && s.machine.updates <= 1
    && (s.end.None? ==> OnceEach(s.machine))
    && (s.end.Some? && s.end.value.Resolved? ==>
          ReadyNow(s.machine) && s.machine.workspace == Some(s.end.value.workspace))
  }

  lemma CompleteSound(s: Wait, filter: string, a: Answers)
    requires Sound(s)
    ensures Sound(Complete(s, filter, a))
  {
    if s.running.Some? {
      ProcessOnce(s.machine, s.running.value, filter, a);
      ReadyExactly(s.machine, s.running.value, filter, a);
    }
  }

  lemma {:induction false} RunSound(s: Wait, filter: string, events: seq<Event>)
    requires Sound(s)
    ensures Sound(Run(s, filter, events))
    decreases |events|
  {
    if events != [] {
      if events[0].Finish? { CompleteSound(s, filter, events[0].a); }
      RunSound(Step(s, filter, events[0]), filter, events[1..]);
    }
  }

  /** Whenever nothing is being processed and the wait is unsettled, the last workspace delivered was processed. */
  lemma LatestIsProcessed(mode: StartupMode, w: Workspace, filter: string, events: seq<Event>)
    ensures var t := Run(Begin(Machine(mode, None, None, 0, 0), w), filter, events);
            t.end.None? && t.running.None? ==> t.processed == t.delivered && t.pending.None?
  {
    RunSound(Begin(Machine(mode, None, None, 0, 0), w), filter, events);
  }

  /** Whatever arrives and whatever is answered: one start prompt and one update attempt at most. */
  lemma AskedOnce(mode: StartupMode, w: Workspace, filter: string, events: seq<Event>)
    ensures var t := Run(Begin(Machine(mode, None, None, 0, 0), w), filter, events);
            t.machine.prompts <= 1 && t.machine.updates <= 1
  {
    RunSound(Begin(Machine(mode, None, None, 0, 0), w), filter, events);
  }

  /** `resolveAgent`: `Err` is its error. */
  function ResolveAgent(w: Workspace, m: Machine): Result<Agent, ()> {
    var found := if m.agent.Some? then FindAgent(Agents(w), m.agent.value.id) else None;
    if found.Some? then Ok(found.value) else Err(())
  }

  /** Once the wait has resolved, resolving the agent cannot fail, and the agent is usable. */
  lemma ResolvedAgentExists(mode: StartupMode, w: Workspace, filter: string, events: seq<Event>)
    ensures var t := Run(Begin(Machine(mode, None, None, 0, 0), w), filter, events);
            t.end.Some? && t.end.value.Resolved? ==>
              && ResolveAgent(t.end.value.workspace, t.machine).Ok?
              && Usable(ResolveAgent(t.end.value.workspace, t.machine).value)
  {
    RunSound(Begin(Machine(mode, None, None, 0, 0), w), filter, events);
  }

  /** A settled wait stays as it is, whatever is still delivered. */
  lemma {:induction false} SettledStays(s: Wait, filter: string, events: seq<Event>)
    requires UpToDate(s) && s.end.Some?
    ensures Run(s, filter, events) == s
    decreases |events|
  {
    if events != [] { SettledStays(s, filter, events[1..]); }
  }

  /** The variables of `waitForWorkspaceReady` and its inner function. */
  class ReadyWait {
    const stateMachine: WorkspaceStateMachine
    var inProgress: Option<Workspace>
    var pendingWorkspace: Option<Workspace>
    var settled: Option<End>
    ghost var delivered: Workspace
    ghost var processed: Workspace

    ghost function View(): Wait
      reads this, stateMachine
    {
      Wait(stateMachine.View(), inProgress, pendingWorkspace, settled, delivered, processed)
    }

    constructor (stateMachine: WorkspaceStateMachine, workspace: Workspace)
      ensures this.stateMachine == stateMachine && View() == Begin(stateMachine.View(), workspace)
    {
      this.stateMachine := stateMachine;
      inProgress, pendingWorkspace, settled := Some(workspace), None, None;
      delivered, processed := workspace, workspace;
    }

    /** The monitor's event, and `processWorkspace` up to its await. */
    method OnChange(w: Workspace)
      modifies this
      ensures View() == Arrive(old(View()), w)
    {
      if settled.Some? { return; }
      delivered := w;
      if inProgress.Some? {
        pendingWorkspace := Some(w);
        return;
      }
      StartProcessing(w);
    }

    method StartProcessing(w: Workspace)
      modifies this`inProgress, this`pendingWorkspace, this`processed
      ensures inProgress == Some(w) && pendingWorkspace == None && processed == w
    {
      inProgress := Some(w);
      pendingWorkspace := None;
      processed := w;
    }

    /** The rest of `processWorkspace`. */
    method OnProcessed(a: Answers)
      requires inProgress.Some?
      modifies this, stateMachine
      ensures View() == Complete(old(View()), stateMachine.filter, a)
    {
      var w := inProgress.value;
      var outcome := stateMachine.ProcessWorkspace(w, a);
      inProgress := None;
      if outcome.IsReady? {
        settled := Some(Resolved(if stateMachine.workspace.Some? then stateMachine.workspace.value else w));
        return;
      }
      if outcome.Thrown? {
        settled := Some(Rejected);
        return;
      }
      if pendingWorkspace.Some? {
        StartProcessing(pendingWorkspace.value);
      }
    }
  }
}

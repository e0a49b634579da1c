/**
 * Which agent is chosen, when processing a workspace waits or fails, and how a wait ends, over
 * every run of src/remote/workspaceStateMachine.ts and its wait.
 */
module ReadinessTheorems {
  import opened Basics
  import opened Readiness

  // ----- the agents to choose from -----

  /** The positions of the agents that the authority asks for, all of them if it names none. */
  function Asked(agents: seq<Agent>, filter: string): set<nat> {
    set i: nat | i < |agents| && (filter == "" || agents[i].name == filter)
  }

  /** How many of them come before position `i`. */
  function Rank(agents: seq<Agent>, filter: string, i: nat): nat {
    |set j | j in Asked(agents, filter) && j < i|
  }

  lemma RankFirst(agents: seq<Agent>, filter: string)
    ensures Rank(agents, filter, 0) == 0
  {
    assert (set j | j in Asked(agents, filter) && j < 0) == {};
  }

  lemma RankNext(agents: seq<Agent>, filter: string, i: nat)
    ensures Rank(agents, filter, i + 1) == Rank(agents, filter, i) + if i in Asked(agents, filter) then 1 else 0
  {
    var before, now := set j | j in Asked(agents, filter) && j < i, set j | j in Asked(agents, filter) && j < i + 1;
    if i in Asked(agents, filter) { assert now == before + {i}; } else { assert now == before; }
  }

  lemma RankAll(agents: seq<Agent>, filter: string)
    ensures Rank(agents, filter, |agents|) == |Asked(agents, filter)|
  {
    assert (set j | j in Asked(agents, filter) && j < |agents|) == Asked(agents, filter);
  }

  /** Asking goes by rank: the agent at position `i` is number `Rank(i)` of the list. */
  predicate InOrder(agents: seq<Agent>, filter: string, list: seq<Agent>) {
    && |list| == |Asked(agents, filter)|
    && forall i :: i in Asked(agents, filter) ==> Rank(agents, filter, i) < |list| && list[Rank(agents, filter, i)] == agents[i]
  }

  function Candidates(agents: seq<Agent>, filter: string): seq<Agent> {
    if filter != "" then Named(agents, filter) else agents
  }

  lemma {:induction false} NamedPrefix(agents: seq<Agent>, name: string, i: nat)
    requires i <= |agents| && name != ""
    ensures |Named(agents[..i], name)| == Rank(agents, name, i)
    ensures Named(agents, name) == Named(agents[..i], name) + Named(agents[i..], name)
    decreases i
  {
    if i == 0 {
      RankFirst(agents, name);
      assert agents[0..] == agents && agents[..0] == [];
    } else {
      var a := agents[i - 1];
      NamedPrefix(agents, name, i - 1);
      RankNext(agents, name, i - 1);
      assert agents[..i] == agents[..i - 1] + [a] && agents[i - 1..] == [a] + agents[i..];
      NamedAppend(agents[..i - 1], [a], name);
      NamedAppend([a], agents[i..], name);
      NamedOne(a, name);
      ConcatAssoc(Named(agents[..i - 1], name), Named([a], name), Named(agents[i..], name));
    }
  }

  lemma NamedOne(a: Agent, name: string)
    ensures Named([a], name) == if a.name == name then [a] else []
  {
    assert Named([a], name) == (if a.name == name then [a] else []) + Named([], name);
  }

  lemma {:induction false} NamedAppend(a: seq<Agent>, b: seq<Agent>, name: string)
    ensures Named(a + b, name) == Named(a, name) + Named(b, name)
  {
    if a == [] {
      assert a + b == b;
    } else {
      assert (a + b)[0] == a[0] && (a + b)[1..] == a[1..] + b;
      NamedAppend(a[1..], b, name);
      ConcatAssoc(if a[0].name == name then [a[0]] else [], Named(a[1..], name), Named(b, name));
    }
  }

  lemma {:induction false} RankOfAll(agents: seq<Agent>, i: nat)
    requires i <= |agents|
    ensures Rank(agents, "", i) == i
  {
    if i == 0 {
      RankFirst(agents, "");
    } else {
      RankOfAll(agents, i - 1);
      RankNext(agents, "", i - 1);
    }
  }

  lemma CandidatesInOrder(agents: seq<Agent>, filter: string)
    ensures InOrder(agents, filter, Candidates(agents, filter))
  {
    RankAll(agents, filter);
    if filter == "" {
      RankOfAll(agents, |agents|);
      forall i | i in Asked(agents, filter) ensures Rank(agents, filter, i) == i { RankOfAll(agents, i); }
    } else {
      NamedPrefix(agents, filter, |agents|);
      assert agents[..|agents|] == agents;
      forall i | i in Asked(agents, filter)
        ensures Rank(agents, filter, i) < |Named(agents, filter)| && Named(agents, filter)[Rank(agents, filter, i)] == agents[i]
      {
        NamedPrefix(agents, filter, i);
        assert agents[i..][0] == agents[i];
        assert Named(agents[i..], filter) == [agents[i]] + Named(agents[i..][1..], filter);
      }
    }
  }

  lemma EveryRankTaken(agents: seq<Agent>, filter: string, p: nat, n: nat) returns (i: nat)
    requires n <= |agents| && p < Rank(agents, filter, n)
    ensures i in Asked(agents, filter) && i < n && Rank(agents, filter, i) == p
    decreases n
  {
    RankFirst(agents, filter);
    RankNext(agents, filter, n - 1);
    if p < Rank(agents, filter, n - 1) { i := EveryRankTaken(agents, filter, p, n - 1); } else { i := n - 1; }
  }

  lemma RanksDiffer(agents: seq<Agent>, filter: string, i: nat, j: nat)
    requires i in Asked(agents, filter) && i < j
    ensures Rank(agents, filter, i) < Rank(agents, filter, j)
    decreases j
  {
    RankNext(agents, filter, j - 1);
    if i < j - 1 { RanksDiffer(agents, filter, i, j - 1); }
  }

  /** Position `i` is the answer: it is asked for, and the only such one or the one picked. */
  predicate IsChosen(agents: seq<Agent>, filter: string, pick: Option<nat>, i: nat) {
    && i in Asked(agents, filter)
    && (|Asked(agents, filter)| == 1 || pick == Some(Rank(agents, filter, i)))
  }

  /**
   * The agent that is chosen, exactly: an error if and only if the workspace has no agent of
   * the asked name; otherwise the one agent of that name, or of several the one picked, in
   * their order in the workspace, and none if the choice is declined.
   */
  lemma ChoiceExactly(agents: seq<Agent>, filter: string, pick: Option<nat>)
    ensures MaybeAskAgent(agents, filter, pick).Err? <==> Asked(agents, filter) == {}
    ensures forall i: nat :: IsChosen(agents, filter, pick, i) ==> MaybeAskAgent(agents, filter, pick) == Ok(Some(agents[i]))
    ensures MaybeAskAgent(agents, filter, pick).Ok? && MaybeAskAgent(agents, filter, pick).value.Some?
       <==> exists i: nat :: IsChosen(agents, filter, pick, i)
  {
    var asked, list := Asked(agents, filter), Candidates(agents, filter);
    CandidatesInOrder(agents, filter);
    RankAll(agents, filter);
    if |asked| == 1 {
      var i := EveryRankTaken(agents, filter, 0, |agents|);
      assert IsChosen(agents, filter, pick, i);
      forall j | j in asked ensures j == i { if j != i { OneOnly(asked, i, j); } }
    } else if pick.Some? && pick.value < |list| {
      var i := EveryRankTaken(agents, filter, pick.value, |agents|);
      assert IsChosen(agents, filter, pick, i);
    }
  }

  lemma OneOnly(s: set<nat>, i: nat, j: nat)
    requires |s| == 1 && i in s && j in s
    ensures i == j
  {
    assert |s - {i}| == 0;
    assert j in s - {i} || j == i;
  }

  /** The agent looked up is the first one with the id, and there is none only if no agent has it. */
  lemma {:induction false} FoundExactly(agents: seq<Agent>, id: string, i: nat)
    requires i <= |agents| && forall j :: 0 <= j < i ==> agents[j].id != id
    requires i < |agents| ==> agents[i].id == id
    ensures FindAgent(agents, id) == if i < |agents| then Some(agents[i]) else None
  {
    if i > 0 { FoundExactly(agents[1..], id, i - 1); }
  }

  // ----- over runs -----

  predicate AskedFor(m: Machine, filter: string) {
    filter != "" && m.agent.Some? ==> m.agent.value.name == filter
  }

  lemma ChosenAsked(agents: seq<Agent>, filter: string, pick: Option<nat>)
    requires filter != ""
    ensures var got := MaybeAskAgent(agents, filter, pick);
            got.Ok? && got.value.Some? ==> got.value.value in agents && got.value.value.name == filter
  {
    ChoiceExactly(agents, filter, pick);
  }

  lemma AgentAsked(m: Machine, w: Workspace, filter: string, a: Answers)
    requires AskedFor(m, filter)
    ensures AskedFor(ProcessAgent(m, w, filter, a).0, filter)
  {
    if filter != "" { ChosenAsked(Agents(w), filter, a.pick); }
  }

  lemma ProcessAsked(m: Machine, w: Workspace, filter: string, a: Answers)
    requires AskedFor(m, filter)
    ensures AskedFor(Process(m, w, filter, a).0, filter)
  {
    ProcessExactly(m, w, filter, a);
    var c, t := Current(m, w, a), Process(m, w, filter, a).0;
    if ReachesAgent(m, w, a) { AgentAsked(Before(m, w, a), c, filter, a); }
  }

  lemma {:induction false} RunAsked(s: Wait, filter: string, events: seq<Event>)
    requires AskedFor(s.machine, filter)
    ensures AskedFor(Run(s, filter, events).machine, filter)
    decreases |events|
  {
    if events != [] {
      if events[0].Finish? && s.running.Some? { ProcessAsked(s.machine, s.running.value, filter, events[0].a); }
      RunAsked(Step(s, filter, events[0]), filter, events[1..]);
    }
  }

  /** Whatever happens during the wait, an agent is only ever chosen if it has the name asked for. */
  lemma OnlyTheAskedAgent(mode: StartupMode, w: Workspace, filter: string, events: seq<Event>)
    requires filter != ""
    ensures var m := Run(Begin(Machine(mode, None, None, 0, 0), w), filter, events).machine;
            m.agent.Some? ==> m.agent.value.name == filter
  {
    RunAsked(Begin(Machine(mode, None, None, 0, 0), w), filter, events);
  }

  // ----- what processing comes to -----

  predicate Down(w: Workspace) {
    w.status.Stopped? || w.status.FailedBuild?
  }

  predicate InTransition(w: Workspace) {
    w.status.Pending? || w.status.Starting? || w.status.Stopping?
  }

  /** The user is asked and declines to start, or asks for an update that was not on offer. */
  predicate Declined(m: Machine, w: Workspace, a: Answers) {
    Down(w) && m.startupMode.NoMode? && a.choice != Some(Start) && !(a.choice == Some(Update) && w.outdated)
  }

  /** An update is due: it was asked for before, or is asked for now. */
  predicate UpdateDue(m: Machine, w: Workspace, a: Answers) {
    (w.status.Running? || Down(w))
    && (m.startupMode.Update? || (Down(w) && m.startupMode.NoMode? && a.choice == Some(Update) && w.outdated))
  }

  predicate UpdateWorked(m: Machine, w: Workspace, a: Answers) {
    UpdateDue(m, w, a) && a.updated.Some?
  }

  /** The workspace to go on with. */
  function Current(m: Machine, w: Workspace, a: Answers): Workspace {
    if UpdateWorked(m, w, a) then a.updated.value else w
  }

  /** Processing comes to look for an agent. */
  predicate ReachesAgent(m: Machine, w: Workspace, a: Answers) {
    (w.status.Running? || Down(w)) && Current(m, w, a).status.Running?
  }

  /** The mode in which it goes on: an update is attempted once, and then it is a start. */
  function ModeAfter(m: Machine, w: Workspace, a: Answers): StartupMode {
    if UpdateDue(m, w, a) then Start
    else if Down(w) && m.startupMode.NoMode? && a.choice == Some(Start) then Start
    else m.startupMode
  }

  /** The machine when processing looks for an agent or settles without one. */
  function Before(m: Machine, w: Workspace, a: Answers): Machine {
    Machine(
      ModeAfter(m, w, a),
      if UpdateWorked(m, w, a) || InTransition(w) then None else m.agent,
      Some(Current(m, w, a)),
      m.prompts + (if Down(w) && m.startupMode.NoMode? then 1 else 0),
      m.updates + (if UpdateDue(m, w, a) then 1 else 0))
  }

  /** Without an agent to look at: a workspace that is gone fails, as does a declined or failed start. */
  predicate FailsWithoutAgent(m: Machine, w: Workspace, a: Answers) {
    || (!w.status.Running? && !Down(w) && !InTransition(w))
    || Declined(m, w, a)
    || (a.throws && (InTransition(w) || (Down(w) && !UpdateWorked(m, w, a))))
  }

  lemma StoppedExactly(m: Machine, w: Workspace, filter: string, a: Answers)
    requires Down(w)
    ensures var s := m.(workspace := Some(w)); var b := Before(m, w, a);
            ProcessStopped(s, w, filter, a)
            == if ReachesAgent(m, w, a) then ProcessAgent(b, Current(m, w, a), filter, a)
               else (b, if FailsWithoutAgent(m, w, a) then Thrown else Waiting)
  {
  }

  lemma RunningExactly(m: Machine, w: Workspace, filter: string, a: Answers)
    requires w.status.Running?
    ensures var s := m.(workspace := Some(w)); var b := Before(m, w, a);
            ProcessRunning(s, w, filter, a)
            == if ReachesAgent(m, w, a) then ProcessAgent(b, Current(m, w, a), filter, a) else (b, Waiting)
  {
  }

  /** Processing looks for an agent in the current workspace, or ends without one as said above. */
  lemma ProcessExactly(m: Machine, w: Workspace, filter: string, a: Answers)
    ensures Process(m, w, filter, a)
         == if ReachesAgent(m, w, a) then ProcessAgent(Before(m, w, a), Current(m, w, a), filter, a)
            else (Before(m, w, a), if FailsWithoutAgent(m, w, a) then Thrown else Waiting)
  {
    if Down(w) { StoppedExactly(m, w, filter, a); }
    if w.status.Running? { RunningExactly(m, w, filter, a); }
  }

  /** The agent cannot take a connection any more. */
  predicate Broken(agent: Agent) {
    || agent.status.AgentDisconnected?
    || (agent.status.AgentConnected?
        && (agent.lifecycle.ShuttingDown? || agent.lifecycle.Off? || agent.lifecycle.ShutdownError?
            || agent.lifecycle.ShutdownTimeout?))
  }

  /** Its startup scripts keep logins waiting, and their logs are streamed meanwhile. */
  predicate Blocked(agent: Agent) {
    agent.status.AgentConnected? && agent.lifecycle.StartingUp? && agent.blocksLogin
  }

  /** No agent is chosen, the chosen one is gone or broken, or its logs cannot be streamed. */
  predicate AgentFails(m: Machine, w: Workspace, a: Answers) {
    || m.agent.None?
    || FindAgent(Agents(w), m.agent.value.id).None?
    || Broken(FindAgent(Agents(w), m.agent.value.id).value)
    || (a.throws && Blocked(FindAgent(Agents(w), m.agent.value.id).value))
  }

  lemma AgentExactly(m: Machine, w: Workspace, filter: string, a: Answers)
    ensures var (t, outcome) := ProcessAgent(m, w, filter, a);
            && (outcome.Thrown? <==> AgentFails(t, w, a))
            && (outcome.IsReady? <==> !AgentFails(t, w, a) && Usable(FindAgent(Agents(w), t.agent.value.id).value))
            && (m.agent.Some? ==> t == m)
            && (m.agent.None? ==> t == m.(agent := t.agent) && t.agent == ChosenBy(MaybeAskAgent(Agents(w), filter, a.pick)))
  {
  }

  function ChosenBy(got: Result<Option<Agent>, ()>): Option<Chosen> {
    if got.Ok? && got.value.Some? then Some(Chosen(got.value.value.id, got.value.value.name)) else None
  }

  /**
   * When processing fails: without an agent to look at, for the reasons said; otherwise if and
   * only if the machine it leaves behind has no agent chosen, or its agent is gone or broken,
   * or is blocked while its logs cannot be streamed.
   */
  lemma ThrowsExactly(m: Machine, w: Workspace, filter: string, a: Answers)
    ensures var (t, outcome) := Process(m, w, filter, a);
            outcome.Thrown? <==>
              if ReachesAgent(m, w, a) then AgentFails(t, Current(m, w, a), a) else FailsWithoutAgent(m, w, a)
  {
    ProcessExactly(m, w, filter, a);
    AgentExactly(Before(m, w, a), Current(m, w, a), filter, a);
  }

  /** When it waits: in every case that neither fails nor is ready. */
  lemma WaitsExactly(m: Machine, w: Workspace, filter: string, a: Answers)
    ensures var (t, outcome) := Process(m, w, filter, a);
            outcome.Waiting? <==>
              if ReachesAgent(m, w, a) then !AgentFails(t, Current(m, w, a), a) && !ReadyNow(t)
              else !FailsWithoutAgent(m, w, a)
  {
    ThrowsExactly(m, w, filter, a);
    ReadyExactly(m, w, filter, a);
    ProcessExactly(m, w, filter, a);
    AgentExactly(Before(m, w, a), Current(m, w, a), filter, a);
  }

  // ----- how a wait ends -----

  /** The end of processing settles the wait, or goes on with what arrived meanwhile. */
  lemma WaitEndsExactly(s: Wait, filter: string, a: Answers)
    requires s.running.Some?
    ensures var (m, outcome) := Process(s.machine, s.running.value, filter, a);
            var t := Step(s, filter, Finish(a));
            && t.machine == m
            && (outcome.Thrown? ==> t.end == Some(Rejected) && t.running.None?)
            && (outcome.IsReady? ==> m.workspace.Some? && t.end == Some(Resolved(m.workspace.value)) && t.running.None?)
            && (outcome.Waiting? ==> t.end == s.end && t.running == s.pending && t.pending.None?)
  {
    ReadyExactly(s.machine, s.running.value, filter, a);
  }

  /** An arrival is processed at once, or replaces what is waiting to be processed. */
  lemma ArrivalIsKept(s: Wait, filter: string, w: Workspace)
    requires s.end.None?
    ensures var t := Step(s, filter, Deliver(w));
            t.machine == s.machine && t.end.None?
            && (if s.running.None? then t.running == Some(w) && t.pending.None?
                else t.running == s.running && t.pending == Some(w))
  {
  }

  /** A workspace that runs with one agent, which is usable, is waited for no longer than it takes to process it. */
  lemma ReadyAtOnce(agent: Agent, filter: string, a: Answers)
    requires Usable(agent) && (filter == "" || agent.name == filter)
    ensures var w := Workspace(Running, false, [[agent]]);
            Run(Begin(Machine(NoMode, None, None, 0, 0), w), filter, [Finish(a)]).end == Some(Resolved(w))
  {
    var w := Workspace(Running, false, [[agent]]);
    var m := Machine(NoMode, None, None, 0, 0);
    FlattenSnoc([], [agent]);
    assert [] + [[agent]] == w.resources && Agents(w) == [agent];
    assert 0 in Asked([agent], filter);
    assert Asked([agent], filter) == {0};
    ChoiceExactly([agent], filter, a.pick);
    assert IsChosen([agent], filter, a.pick, 0);
    FoundExactly([agent], agent.id, 0);
    ProcessExactly(m, w, filter, a);
    AgentExactly(Before(m, w, a), w, filter, a);
    assert [Finish(a)][1..] == [];
  }
}

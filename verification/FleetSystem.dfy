/**
  The whole protocol: the server's tables, every agent, and the result messages on the
  wire.  A message stays on the wire once sent, so the network may lose, delay, reorder and
  repeat results.  Polls may be lost on the way there and back, reports of any age may
  reach the server, and a poll handler may answer at any later time.  Agents may restart
  between any two steps.
 */
module FleetSystem {
  import opened Basics
  import opened Rollouts
  import opened CommandQueue
  import opened AgentSteps
  import AgentRegistry

  datatype Message = Message(agent: AgentId, command: CommandId, payload: string, error: string)

  /**
    `registry` holds the agent rows that polls update, and `waiting` counts the poll handlers
    that accepted a report of an agent and have not answered yet.  `saved`, `runs` and
    `losses` record history: the results saved so far, how often each command was executed,
    and how often an execution was lost to a restart before its result was saved.
   */
  datatype System = System(
    queue: Queue,
    registry: AgentRegistry.Registry,
    waiting: map<AgentId, nat>,
    agents: map<AgentId, Agent>,
    wire: set<Message>,
    saved: map<CommandId, Response>,
    runs: map<CommandId, nat>,
    losses: map<CommandId, nat>)

  datatype Step =
    | QueueOne(agent: AgentId, op: string, params: string, now: int)
    | Roll(agents: seq<AgentId>, op: string, params: string, batch: int, maxFailures: int, now: int)
    | SendPoll(agent: AgentId)
    | DropPoll(agent: AgentId)
    | Accept(agent: AgentId, report: AgentRegistry.StateReport)
    | Answer(agent: AgentId, now: int, found: Option<CommandId>, arrives: bool)
    | Run(agent: AgentId, response: Response)
    | SaveIdentity(agent: AgentId)
    | Post(agent: AgentId)
    | Handle(message: Message, now: int, arrives: bool)
    | Crash(agent: AgentId)
    | Adopt(agent: AgentId, certificate: string)

  function Times<K(==)>(m: map<K, nat>, c: K): nat { if c in m then m[c] else 0 }

  predicate Awaits(a: Agent, m: Message) {
    CanPost(a) && a.mem.pending.value.command == m.command
    && a.mem.pending.value.response.payload == m.payload && a.mem.pending.value.response.error == m.error
  }

  ghost predicate Enabled(s: System, step: Step) {
    match step
    case QueueOne(a, op, params, now) => a in s.agents
    case Roll(agents, op, params, batch, maxFailures, now) =>
      && agents != [] && (forall i :: 0 <= i < |agents| ==> agents[i] in s.agents)
      && forall i, j :: 0 <= i < j < |agents| ==> agents[i] != agents[j]
    case SendPoll(a) => a in s.agents && CanPoll(s.agents[a])
    case DropPoll(a) => a in s.agents && s.agents[a].stage.Polling?
    case Accept(a, report) => AgentRegistry.Fresh(s.registry, a, report)
    case Answer(a, now, found, arrives) =>
      Times(s.waiting, a) > 0 && MayDeliver(s.queue, a, now, found)
      && (arrives ==> a in s.agents && s.agents[a].stage.Polling?)
    case Run(a, response) => a in s.agents && s.agents[a].stage.Received?
    case SaveIdentity(a) => a in s.agents && s.agents[a].stage.Unsaved?
    case Post(a) => a in s.agents && CanPost(s.agents[a])
    case Handle(m, now, arrives) =>
      m in s.wire && (arrives ==> m.agent in s.agents && Awaits(s.agents[m.agent], m))
    case Crash(a) => a in s.agents
    case Adopt(a, certificate) => a in s.agents && s.agents[a].stage == Ready
  }

  function SetAgent(s: System, a: AgentId, agent: Agent): System { s.(agents := s.agents[a := agent]) }

  function HearAnswer(agent: Agent, q: Queue, found: Option<CommandId>): Agent {
    match found
    case None => HearNothing(agent)
    case Some(c) => if c in q.commands then Receive(agent, c, q.commands[c].op, q.commands[c].params) else agent
  }

  function MessageOf(a: AgentId, r: Report): Message {
    Message(a, r.command, r.response.payload, r.response.error)
  }

  /** An agent restarts from its disk; an execution whose result was not saved is lost. */
  function Crashed(s: System, a: AgentId): System
    requires a in s.agents
  {
    var agent := s.agents[a];
    var t := SetAgent(s, a, Restart(agent));
    if agent.stage.Unsaved? && agent.mem.pending.Some? then
      var c := agent.mem.pending.value.command;
      t.(losses := s.losses[c := Times(s.losses, c) + 1])
    else t
  }

  ghost function Apply(s: System, step: Step): System
    requires Enabled(s, step)
  {
    match step
    case QueueOne(a, op, params, now) => s.(queue := Enqueue(s.queue, a, op, params, now))
    case Roll(agents, op, params, batch, maxFailures, now) =>
      s.(queue := StartRollout(s.queue, agents, op, params, batch, maxFailures, now))
    case SendPoll(a) => SetAgent(s, a, CountPoll(s.agents[a]))
    case DropPoll(a) => SetAgent(s, a, GiveUp(s.agents[a]))
    case Accept(a, report) =>
      s.(registry := AgentRegistry.UpdateState(s.registry, a, report),
         waiting := s.waiting[a := Times(s.waiting, a) + 1])
    case Answer(a, now, found, arrives) =>
      var t := s.(queue := Deliver(s.queue, a, now, found), waiting := s.waiting[a := Times(s.waiting, a) - 1]);
      if arrives then SetAgent(t, a, HearAnswer(s.agents[a], s.queue, found)) else t
    case Run(a, response) =>
      var c := s.agents[a].stage.command;
      SetAgent(s, a, Execute(s.agents[a], response)).(runs := s.runs[c := Times(s.runs, c) + 1])
    case SaveIdentity(a) =>
      var r := s.agents[a].mem.pending;
      SetAgent(s, a, Save(s.agents[a])).(
        saved := if r.Some? then s.saved[r.value.command := r.value.response] else s.saved)
    case Post(a) => s.(wire := s.wire + {MessageOf(a, s.agents[a].mem.pending.value)})
    case Handle(m, now, arrives) =>
      var t := s.(queue := Complete(s.queue, m.agent, m.command, m.payload, m.error, now));
      if arrives then SetAgent(t, m.agent, Acknowledge(s.agents[m.agent])) else t
    case Crash(a) => Crashed(s, a)
    case Adopt(a, certificate) => SetAgent(s, a, Renew(s.agents[a], certificate))
  }

  // ---------- runs ----------

  function Fresh(): Agent { Agent(Identity(0, 0, None, ""), Identity(0, 0, None, ""), Ready) }

  function EnrolledRow(): AgentRegistry.AgentRow {
    AgentRegistry.AgentRow(AgentRegistry.Profile(0, []), AgentRegistry.Online, None, [], 0, "", 0)
  }

  /** Enrolled agents that have done nothing yet, and empty tables. */
  function Initial(names: set<AgentId>): System {
    System(
      Queue(map[], map[], 0),
      AgentRegistry.Registry(map[], map a | a in names :: EnrolledRow()),
      map[],
      map a | a in names :: Fresh(),
      {}, map[], map[], map[])
  }

  /** The steps can be taken one after the other from s. */
  ghost predicate Possible(s: System, steps: seq<Step>)
    decreases |steps|
  {
    steps == [] || (Enabled(s, steps[0]) && Possible(Apply(s, steps[0]), steps[1..]))
  }

  ghost function After(s: System, steps: seq<Step>): System
    requires Possible(s, steps)
    decreases |steps|
  {
    if steps == [] then s else After(Apply(s, steps[0]), steps[1..])
  }

  // ---------- the invariant ----------

  predicate Owns(cs: map<CommandId, Command>, a: AgentId, c: CommandId) {
    c in cs && cs[c].agent == a
  }

  /** What an agent holds fits what was saved so far. */
  ghost predicate AgentOk(cs: map<CommandId, Command>, saved: map<CommandId, Response>, a: AgentId, agent: Agent) {
    && (agent.disk.pending.Some? ==>
          var r := agent.disk.pending.value;
          Owns(cs, a, r.command) && r.command in saved && saved[r.command] == r.response)
    && match agent.stage
       case Ready => agent.mem.pending == agent.disk.pending
       case Polling => agent.mem.pending == None && agent.disk.pending == None
       case Received(c, op, params) =>
         && agent.mem.pending == None && agent.disk.pending == None
         && Owns(cs, a, c) && c !in saved
       case Unsaved =>
         match agent.mem.pending
         case Some(r) => agent.disk.pending == None && Owns(cs, a, r.command) && r.command !in saved
         case None => agent.disk.pending.Some? ==>
           var c := agent.disk.pending.value.command;
           c in cs && Terminal(cs[c].state)
  }

  /** A saved result is the one its row stores, or it still waits on its agent's disk. */
  ghost predicate SavedOk(cs: map<CommandId, Command>, saved: map<CommandId, Response>,
                          agents: map<AgentId, Agent>, c: CommandId)
    requires c in saved
  {
    && c in cs
    && if Terminal(cs[c].state) then cs[c] == FinishedRow(cs[c], saved[c].payload, saved[c].error)
       else cs[c].agent in agents && agents[cs[c].agent].disk.pending == Some(Report(c, saved[c]))
  }

  ghost predicate WireOk(cs: map<CommandId, Command>, saved: map<CommandId, Response>, m: Message) {
    && Owns(cs, m.agent, m.command) && m.command in saved
    && saved[m.command].payload == m.payload && saved[m.command].error == m.error
  }

  /** The command was executed and its result is in memory only. */
  predicate InMemory(cs: map<CommandId, Command>, agents: map<AgentId, Agent>, c: CommandId) {
    && c in cs && cs[c].agent in agents
    && var agent := agents[cs[c].agent];
       agent.stage.Unsaved? && agent.mem.pending.Some? && agent.mem.pending.value.command == c
  }

  ghost predicate CountsOk(s: System, c: CommandId) {
    Times(s.runs, c) == Times(s.losses, c) + (if c in s.saved || InMemory(s.queue.commands, s.agents, c) then 1 else 0)
  }

  ghost predicate SystemInv(s: System) {
    && QueueInv(s.queue)
    && (forall a :: a in s.agents ==> AgentOk(s.queue.commands, s.saved, a, s.agents[a]))
    && (forall c :: c in s.saved ==> SavedOk(s.queue.commands, s.saved, s.agents, c))
    && (forall c :: c in s.queue.commands && Terminal(s.queue.commands[c].state) ==> c in s.saved)
    && (forall m :: m in s.wire ==> WireOk(s.queue.commands, s.saved, m))
    && (forall c :: CountsOk(s, c))
  }

  // ---------- every step keeps the invariant ----------

  /** Rows keep their agent, results are not rewritten, and what is new or live has no result. */
  ghost predicate Grows(cs: map<CommandId, Command>, ds: map<CommandId, Command>) {
    && (forall c :: c in cs ==>
          && c in ds && ds[c].agent == cs[c].agent
          && (Terminal(cs[c].state) ==> ds[c] == cs[c])
          && (!Terminal(cs[c].state) ==> !Terminal(ds[c].state)))
    && (forall c :: c in ds && c !in cs ==> !Terminal(ds[c].state))
  }

  lemma EnqueueGrows(q: Queue, a: AgentId, op: string, params: string, now: int)
    requires QueueInv(q)
    ensures Grows(q.commands, Enqueue(q, a, op, params, now).commands)
  {
  }

  lemma DeliverGrows(q: Queue, a: AgentId, now: int, found: Option<CommandId>)
    requires MayDeliver(q, a, now, found)
    ensures Grows(q.commands, Deliver(q, a, now, found).commands)
  {
  }

  lemma StartRolloutGrows(q: Queue, agents: seq<AgentId>, op: string, params: string,
                          batch: int, maxFailures: int, now: int)
    requires QueueInv(q) && agents != []
    ensures Grows(q.commands, StartRollout(q, agents, op, params, batch, maxFailures, now).commands)
  {
  }

  /** Which commands wait in memory does not depend on rows that agents do not hold. */
  lemma GrowthCounts(s: System, q: Queue, c: CommandId)
    requires SystemInv(s) && Grows(s.queue.commands, q.commands)
    ensures CountsOk(s.(queue := q), c)
  {
    assert CountsOk(s, c);
    assert c in q.commands && q.commands[c].agent in s.agents ==>
      AgentOk(s.queue.commands, s.saved, q.commands[c].agent, s.agents[q.commands[c].agent]);
  }

  lemma GrowthKeepsAgent(cs: map<CommandId, Command>, ds: map<CommandId, Command>,
                         saved: map<CommandId, Response>, a: AgentId, agent: Agent)
    requires Grows(cs, ds) && AgentOk(cs, saved, a, agent)
    ensures AgentOk(ds, saved, a, agent)
  {
  }

  /** When only the queue grows, everything else keeps fitting it. */
  lemma GrowthKeepsInv(s: System, q: Queue)
    requires SystemInv(s) && QueueInv(q) && Grows(s.queue.commands, q.commands)
    ensures SystemInv(s.(queue := q))
  {
    var t := s.(queue := q);
    forall a | a in t.agents ensures AgentOk(q.commands, t.saved, a, t.agents[a]) {
      GrowthKeepsAgent(s.queue.commands, q.commands, s.saved, a, s.agents[a]);
    }
    forall c | c in t.saved ensures SavedOk(q.commands, t.saved, t.agents, c) {
      assert SavedOk(s.queue.commands, s.saved, s.agents, c);
    }
    forall c ensures CountsOk(t, c) {
      GrowthCounts(s, q, c);
    }
  }

  lemma AgentStepCounts(s: System, a: AgentId, agent: Agent, c: CommandId)
    requires a in s.agents && CountsOk(s, c)
    requires forall r :: agent.stage.Unsaved? && agent.mem.pending == Some(r) ==> s.agents[a] == agent
    requires s.agents[a].stage.Unsaved? && s.agents[a].mem.pending.Some? ==> s.agents[a] == agent
    ensures CountsOk(SetAgent(s, a, agent), c)
  {
  }

  /** Only agent a changes, and what it saved stays on its disk. */
  lemma AgentStepKeepsInv(s: System, a: AgentId, agent: Agent)
    requires SystemInv(s) && a in s.agents
    requires AgentOk(s.queue.commands, s.saved, a, agent)
    requires agent.disk.pending == s.agents[a].disk.pending
    requires forall r :: agent.stage.Unsaved? && agent.mem.pending == Some(r) ==> s.agents[a] == agent
    requires s.agents[a].stage.Unsaved? && s.agents[a].mem.pending.Some? ==> s.agents[a] == agent
    ensures SystemInv(SetAgent(s, a, agent))
  {
    var t := SetAgent(s, a, agent);
    forall c ensures CountsOk(t, c) {
      AgentStepCounts(s, a, agent, c);
    }
    forall c | c in s.saved ensures SavedOk(s.queue.commands, s.saved, t.agents, c) {
      assert SavedOk(s.queue.commands, s.saved, s.agents, c);
    }
  }

  lemma HearAnswerOk(s: System, t: System, a: AgentId, found: Option<CommandId>)
    requires SystemInv(s) && a in s.agents && s.agents[a].stage.Polling?
    requires Grows(s.queue.commands, t.queue.commands) && t.saved == s.saved
    requires found.Some? ==> Owns(s.queue.commands, a, found.value) && !Terminal(s.queue.commands[found.value].state)
    ensures AgentOk(t.queue.commands, t.saved, a, HearAnswer(s.agents[a], s.queue, found))
  {
  }

  lemma FoundIsOwn(q: Queue, a: AgentId, now: int, found: Option<CommandId>)
    requires MayDeliver(q, a, now, found) && found.Some?
    ensures Owns(q.commands, a, found.value) && !Terminal(q.commands[found.value].state)
  {
  }

  /** The rows of the agents and the waiting handlers play no part in the invariant. */
  lemma OnlyRegistryChanges(s: System, registry: AgentRegistry.Registry, waiting: map<AgentId, nat>)
    requires SystemInv(s)
    ensures SystemInv(s.(registry := registry, waiting := waiting))
  {
    forall c ensures CountsOk(s.(registry := registry, waiting := waiting), c) {
      assert CountsOk(s, c);
    }
  }

  lemma AnswerKeepsInv(s: System, a: AgentId, now: int, found: Option<CommandId>, arrives: bool)
    requires SystemInv(s) && Enabled(s, Answer(a, now, found, arrives))
    ensures SystemInv(Apply(s, Answer(a, now, found, arrives)))
  {
    var q, waiting := Deliver(s.queue, a, now, found), s.waiting[a := Times(s.waiting, a) - 1];
    DeliverKeepsInv(s.queue, a, now, found);
    DeliverGrows(s.queue, a, now, found);
    GrowthKeepsInv(s, q);
    OnlyRegistryChanges(s.(queue := q), s.registry, waiting);
    var t := s.(queue := q, waiting := waiting);
    if arrives {
      if found.Some? { FoundIsOwn(s.queue, a, now, found); }
      HearAnswerOk(s, t, a, found);
      AgentStepKeepsInv(t, a, HearAnswer(s.agents[a], s.queue, found));
    }
  }

  lemma RunKeepsInv(s: System, a: AgentId, response: Response)
    requires SystemInv(s) && Enabled(s, Run(a, response))
    ensures SystemInv(Apply(s, Run(a, response)))
  {
    var t := Apply(s, Run(a, response));
    assert AgentOk(s.queue.commands, s.saved, a, s.agents[a]);
    forall c ensures CountsOk(t, c) {
      RunCounts(s, a, response, c);
    }
    forall c | c in s.saved ensures SavedOk(s.queue.commands, s.saved, t.agents, c) {
      assert SavedOk(s.queue.commands, s.saved, s.agents, c);
    }
  }

  lemma RunCounts(s: System, a: AgentId, response: Response, c: CommandId)
    requires Enabled(s, Run(a, response)) && CountsOk(s, c)
    requires AgentOk(s.queue.commands, s.saved, a, s.agents[a])
    ensures CountsOk(Apply(s, Run(a, response)), c)
  {
  }

  lemma SaveKeepsAgents(s: System, a: AgentId, b: AgentId)
    requires SystemInv(s) && Enabled(s, SaveIdentity(a)) && b in s.agents
    ensures var t := Apply(s, SaveIdentity(a)); AgentOk(t.queue.commands, t.saved, b, t.agents[b])
  {
  }

  lemma SaveKeepsSaved(s: System, a: AgentId, c: CommandId)
    requires SystemInv(s) && Enabled(s, SaveIdentity(a)) && c in Apply(s, SaveIdentity(a)).saved
    ensures var t := Apply(s, SaveIdentity(a)); SavedOk(t.queue.commands, t.saved, t.agents, c)
  {
    assert AgentOk(s.queue.commands, s.saved, a, s.agents[a]);
    assert c in s.saved ==> SavedOk(s.queue.commands, s.saved, s.agents, c);
  }

  lemma SaveCounts(s: System, a: AgentId, c: CommandId)
    requires SystemInv(s) && Enabled(s, SaveIdentity(a))
    ensures CountsOk(Apply(s, SaveIdentity(a)), c)
  {
    assert AgentOk(s.queue.commands, s.saved, a, s.agents[a]);
    assert CountsOk(s, c);
  }

  lemma SaveKeepsWire(s: System, a: AgentId, m: Message)
    requires SystemInv(s) && Enabled(s, SaveIdentity(a)) && m in s.wire
    ensures WireOk(s.queue.commands, Apply(s, SaveIdentity(a)).saved, m)
  {
  }

  lemma SaveKeepsInv(s: System, a: AgentId)
    requires SystemInv(s) && Enabled(s, SaveIdentity(a))
    ensures SystemInv(Apply(s, SaveIdentity(a)))
  {
    var t := Apply(s, SaveIdentity(a));
    forall b | b in t.agents ensures AgentOk(t.queue.commands, t.saved, b, t.agents[b]) {
      SaveKeepsAgents(s, a, b);
    }
    forall c | c in t.saved ensures SavedOk(t.queue.commands, t.saved, t.agents, c) {
      SaveKeepsSaved(s, a, c);
    }
    forall c ensures CountsOk(t, c) {
      SaveCounts(s, a, c);
    }
    forall m | m in t.wire ensures WireOk(t.queue.commands, t.saved, m) {
      SaveKeepsWire(s, a, m);
    }
  }

  lemma PostKeepsInv(s: System, a: AgentId)
    requires SystemInv(s) && Enabled(s, Post(a))
    ensures SystemInv(Apply(s, Post(a)))
  {
    var t := Apply(s, Post(a));
    assert AgentOk(s.queue.commands, s.saved, a, s.agents[a]);
    forall c ensures CountsOk(t, c) {
      assert CountsOk(s, c);
    }
  }

  lemma CrashCounts(s: System, a: AgentId, c: CommandId)
    requires a in s.agents && AgentOk(s.queue.commands, s.saved, a, s.agents[a])
    requires CountsOk(s, c)
    ensures CountsOk(Crashed(s, a), c)
  {
  }

  /** Restarting one agent keeps what its disk holds. */
  lemma RestartKeepsInv(s: System, t: System, a: AgentId)
    requires SystemInv(s) && a in s.agents
    requires t.queue == s.queue && t.saved == s.saved && t.wire == s.wire
    requires t.agents == s.agents[a := Restart(s.agents[a])]
    requires forall c :: CountsOk(t, c)
    ensures SystemInv(t)
  {
  }

  lemma CrashKeepsInv(s: System, a: AgentId)
    requires SystemInv(s) && Enabled(s, Crash(a))
    ensures SystemInv(Apply(s, Crash(a)))
  {
    forall c ensures CountsOk(Crashed(s, a), c) {
      CrashCounts(s, a, c);
    }
    RestartKeepsInv(s, Crashed(s, a), a);
  }

  /** What a handled message does to the command rows. */
  ghost predicate Settled(cs: map<CommandId, Command>, ds: map<CommandId, Command>, m: Message) {
    && m.command in cs && m.command in ds
    && ds[m.command] == FinishedRow(cs[m.command], m.payload, m.error)
    && (forall c :: c in cs && c != m.command ==> c in ds && ds[c] == cs[c])
    && (forall c :: c in ds && c !in cs ==> !Terminal(ds[c].state))
  }

  lemma HandledMessage(s: System, m: Message, now: int)
    requires SystemInv(s) && m in s.wire
    ensures var q := Complete(s.queue, m.agent, m.command, m.payload, m.error, now);
      QueueInv(q) && Settled(s.queue.commands, q.commands, m)
  {
    MessageIsConsistent(s, m);
    CompleteKeepsInv(s.queue, m.agent, m.command, m.payload, m.error, now);
    CompletionSettles(s.queue, m, now);
  }

  lemma MessageIsConsistent(s: System, m: Message)
    requires SystemInv(s) && m in s.wire
    ensures Consistent(s.queue, m.agent, m.command, m.error)
  {
  }

  lemma CompletionSettles(q: Queue, m: Message, now: int)
    requires QueueInv(q) && Consistent(q, m.agent, m.command, m.error)
    ensures Settled(q.commands, Complete(q, m.agent, m.command, m.payload, m.error, now).commands, m)
  {
    CompletionStores(q, m.agent, m.command, m.payload, m.error, now);
    var r := StoreResult(q, m.agent, m.command, m.payload, m.error);
    assert r.commands[m.command] == FinishedRow(q.commands[m.command], m.payload, m.error);
  }

  /** The message that was handled carries what was saved. */
  lemma SettledSaved(s: System, m: Message, ds: map<CommandId, Command>, c: CommandId)
    requires SystemInv(s) && m in s.wire && Settled(s.queue.commands, ds, m) && c in s.saved
    ensures SavedOk(ds, s.saved, s.agents, c)
  {
    assert WireOk(s.queue.commands, s.saved, m);
    assert SavedOk(s.queue.commands, s.saved, s.agents, c);
  }

  lemma SettledAgent(s: System, m: Message, ds: map<CommandId, Command>, b: AgentId)
    requires SystemInv(s) && m in s.wire && Settled(s.queue.commands, ds, m) && b in s.agents
    ensures AgentOk(ds, s.saved, b, s.agents[b])
  {
    assert AgentOk(s.queue.commands, s.saved, b, s.agents[b]);
  }

  lemma SettledWire(s: System, m: Message, ds: map<CommandId, Command>, x: Message)
    requires SystemInv(s) && Settled(s.queue.commands, ds, m) && x in s.wire
    ensures WireOk(ds, s.saved, x)
  {
    assert WireOk(s.queue.commands, s.saved, x);
  }

  lemma SettledCounts(s: System, m: Message, q: Queue, c: CommandId)
    requires SystemInv(s) && m in s.wire && Settled(s.queue.commands, q.commands, m)
    ensures CountsOk(s.(queue := q), c)
  {
    assert CountsOk(s, c);
    assert c in q.commands && q.commands[c].agent in s.agents ==>
      AgentOk(s.queue.commands, s.saved, q.commands[c].agent, s.agents[q.commands[c].agent]);
  }

  lemma SettledTerminal(s: System, m: Message, ds: map<CommandId, Command>, c: CommandId)
    requires SystemInv(s) && m in s.wire && Settled(s.queue.commands, ds, m)
    requires c in ds && Terminal(ds[c].state)
    ensures c in s.saved
  {
    assert WireOk(s.queue.commands, s.saved, m);
  }

  lemma SettledKeepsInv(s: System, m: Message, q: Queue)
    requires SystemInv(s) && m in s.wire
    requires QueueInv(q) && Settled(s.queue.commands, q.commands, m)
    ensures SystemInv(s.(queue := q))
  {
    var t := s.(queue := q);
    forall c | c in s.saved ensures SavedOk(q.commands, s.saved, s.agents, c) {
      SettledSaved(s, m, q.commands, c);
    }
    forall b | b in s.agents ensures AgentOk(q.commands, s.saved, b, s.agents[b]) {
      SettledAgent(s, m, q.commands, b);
    }
    forall x | x in s.wire ensures WireOk(q.commands, s.saved, x) {
      SettledWire(s, m, q.commands, x);
    }
    forall c ensures CountsOk(t, c) {
      SettledCounts(s, m, q, c);
    }
    forall c | c in q.commands && Terminal(q.commands[c].state) ensures c in s.saved {
      SettledTerminal(s, m, q.commands, c);
    }
  }

  lemma HandleKeepsInv(s: System, m: Message, now: int, arrives: bool)
    requires SystemInv(s) && Enabled(s, Handle(m, now, arrives))
    ensures SystemInv(Apply(s, Handle(m, now, arrives)))
  {
    var q := Complete(s.queue, m.agent, m.command, m.payload, m.error, now);
    HandledMessage(s, m, now);
    SettledKeepsInv(s, m, q);
    if arrives {
      assert AgentOk(q.commands, s.saved, m.agent, s.agents[m.agent]);
      AgentStepKeepsInv(s.(queue := q), m.agent, Acknowledge(s.agents[m.agent]));
    }
  }

  lemma AdoptKeepsInv(s: System, a: AgentId, certificate: string)
    requires SystemInv(s) && Enabled(s, Adopt(a, certificate))
    ensures SystemInv(Apply(s, Adopt(a, certificate)))
  {
    assert AgentOk(s.queue.commands, s.saved, a, s.agents[a]);
    AgentStepKeepsInv(s, a, Renew(s.agents[a], certificate));
  }

  lemma StepKeepsInv(s: System, step: Step)
    requires SystemInv(s) && Enabled(s, step)
    ensures SystemInv(Apply(s, step))
  {
    match step
    case QueueOne(a, op, params, now) =>
      EnqueueKeepsInv(s.queue, a, op, params, now);
      EnqueueGrows(s.queue, a, op, params, now);
      GrowthKeepsInv(s, Enqueue(s.queue, a, op, params, now));
    case Roll(agents, op, params, batch, maxFailures, now) =>
      StartRolloutKeepsInv(s.queue, agents, op, params, batch, maxFailures, now);
      StartRolloutGrows(s.queue, agents, op, params, batch, maxFailures, now);
      GrowthKeepsInv(s, StartRollout(s.queue, agents, op, params, batch, maxFailures, now));
    case SendPoll(a) => AgentStepKeepsInv(s, a, CountPoll(s.agents[a]));
    case DropPoll(a) => AgentStepKeepsInv(s, a, GiveUp(s.agents[a]));
    case Accept(a, report) =>
      OnlyRegistryChanges(s, Apply(s, step).registry, Apply(s, step).waiting);
    case Answer(a, now, found, arrives) => AnswerKeepsInv(s, a, now, found, arrives);
    case Run(a, response) => RunKeepsInv(s, a, response);
    case SaveIdentity(a) => SaveKeepsInv(s, a);
    case Post(a) => PostKeepsInv(s, a);
    case Handle(m, now, arrives) => HandleKeepsInv(s, m, now, arrives);
    case Crash(a) => CrashKeepsInv(s, a);
    case Adopt(a, certificate) => AdoptKeepsInv(s, a, certificate);
  }

  lemma InitialInv(names: set<AgentId>)
    ensures SystemInv(Initial(names))
  {
  }

  /** The invariant holds after every run. */
  lemma {:induction false} RunKeepsSystemInv(s: System, steps: seq<Step>)
    requires SystemInv(s) && Possible(s, steps)
    ensures SystemInv(After(s, steps))
    decreases |steps|
  {
    if steps != [] {
      StepKeepsInv(s, steps[0]);
      RunKeepsSystemInv(Apply(s, steps[0]), steps[1..]);
    }
  }

  // ---------- what the protocol guarantees ----------

  /** A saved result stays, and its command is not run again. */
  ghost predicate HistoryStays(s: System, t: System) {
    forall c :: c in s.saved ==>
      && c in t.saved && t.saved[c] == s.saved[c]
      && Times(t.runs, c) == Times(s.runs, c) && Times(t.losses, c) == Times(s.losses, c)
  }

  /** Stored rows only ever gain company. */
  ghost predicate RowsStay(cs: map<CommandId, Command>, ds: map<CommandId, Command>) {
    forall c :: c in cs && Terminal(cs[c].state) ==> c in ds && ds[c] == cs[c]
  }

  ghost predicate SequencesRise(r: AgentRegistry.Registry, t: AgentRegistry.Registry) {
    forall a :: a in r.agents ==> a in t.agents && r.agents[a].sequence <= t.agents[a].sequence
  }

  /** Nothing that was saved, run, stored or counted in s is undone in t. */
  ghost predicate Since(s: System, t: System) {
    && HistoryStays(s, t)
    && RowsStay(s.queue.commands, t.queue.commands)
    && SequencesRise(s.registry, t.registry)
    && s.wire <= t.wire
  }

  lemma HandleKeepsRows(s: System, m: Message, now: int)
    requires SystemInv(s) && m in s.wire
    ensures RowsStay(s.queue.commands, Complete(s.queue, m.agent, m.command, m.payload, m.error, now).commands)
  {
    HandledMessage(s, m, now);
    assert WireOk(s.queue.commands, s.saved, m);
    assert SavedOk(s.queue.commands, s.saved, s.agents, m.command);
  }

  /** The step calls the server's queue. */
  predicate ReachesQueue(step: Step) { step.QueueOne? || step.Roll? || step.Answer? || step.Handle? }

  lemma OtherStepsSpareQueue(s: System, step: Step)
    requires Enabled(s, step) && !ReachesQueue(step)
    ensures Apply(s, step).queue == s.queue
  {
  }

  lemma QueueStepKeepsRows(s: System, step: Step)
    requires SystemInv(s) && Enabled(s, step) && ReachesQueue(step)
    ensures RowsStay(s.queue.commands, Apply(s, step).queue.commands)
  {
    match step
    case QueueOne(a, op, params, now) => EnqueueGrows(s.queue, a, op, params, now);
    case Roll(agents, op, params, batch, maxFailures, now) =>
      StartRolloutGrows(s.queue, agents, op, params, batch, maxFailures, now);
    case Answer(a, now, found, arrives) => DeliverGrows(s.queue, a, now, found);
    case Handle(m, now, arrives) => HandleKeepsRows(s, m, now);
  }

  lemma StepKeepsRows(s: System, step: Step)
    requires SystemInv(s) && Enabled(s, step)
    ensures RowsStay(s.queue.commands, Apply(s, step).queue.commands)
  {
    if ReachesQueue(step) {
      QueueStepKeepsRows(s, step);
    } else {
      OtherStepsSpareQueue(s, step);
    }
  }

  lemma StepKeepsHistory(s: System, step: Step)
    requires SystemInv(s) && Enabled(s, step)
    ensures HistoryStays(s, Apply(s, step))
  {
    if step.Run? {
      RunKeepsHistory(s, step.agent, step.response);
    } else if step.SaveIdentity? {
      SaveKeepsHistory(s, step.agent);
    } else if step.Crash? {
      CrashKeepsHistory(s, step.agent);
    }
  }

  lemma RunKeepsHistory(s: System, a: AgentId, response: Response)
    requires SystemInv(s) && Enabled(s, Run(a, response))
    ensures HistoryStays(s, Apply(s, Run(a, response)))
  {
    assert AgentOk(s.queue.commands, s.saved, a, s.agents[a]);
  }

  lemma SaveKeepsHistory(s: System, a: AgentId)
    requires SystemInv(s) && Enabled(s, SaveIdentity(a))
    ensures HistoryStays(s, Apply(s, SaveIdentity(a)))
  {
    assert AgentOk(s.queue.commands, s.saved, a, s.agents[a]);
  }

  lemma CrashKeepsHistory(s: System, a: AgentId)
    requires SystemInv(s) && Enabled(s, Crash(a))
    ensures HistoryStays(s, Apply(s, Crash(a)))
  {
    assert AgentOk(s.queue.commands, s.saved, a, s.agents[a]);
  }

  lemma StepRaisesSequences(s: System, step: Step)
    requires Enabled(s, step)
    ensures SequencesRise(s.registry, Apply(s, step).registry)
    ensures s.wire <= Apply(s, step).wire
  {
    match step
    case Accept(a, report) =>
    case Answer(a, now, found, arrives) =>
    case Handle(m, now, arrives) =>
    case _ =>
  }

  /**
    Once an agent has saved a result, its command is never executed again in any
    continuation, the saved result never changes, and neither does a stored row; the
    sequence that the server holds for an agent never goes back.
   */
  lemma {:induction false} SavedCommandsNeverRunAgain(s: System, steps: seq<Step>)
    requires SystemInv(s) && Possible(s, steps)
    ensures Since(s, After(s, steps))
    decreases |steps|
  {
    if steps != [] {
      StepKeepsInv(s, steps[0]);
      StepKeepsHistory(s, steps[0]);
      StepKeepsRows(s, steps[0]);
      StepRaisesSequences(s, steps[0]);
      SavedCommandsNeverRunAgain(Apply(s, steps[0]), steps[1..]);
    }
  }

  /**
    In every reachable state the outcome that the server stores for a command is exactly
    the one result that was saved for it, and the command was executed once more than
    restarts lost an execution before it was saved.
   */
  lemma StoredOutcomeIsSavedResult(names: set<AgentId>, steps: seq<Step>, c: CommandId)
    requires Possible(Initial(names), steps)
    ensures var t := After(Initial(names), steps);
      && (c in t.queue.commands && Terminal(t.queue.commands[c].state) ==>
            && c in t.saved
            && t.queue.commands[c].result == NullableJson(t.saved[c].payload)
            && t.queue.commands[c].error == t.saved[c].error
            && (t.queue.commands[c].state == Errored <==> t.saved[c].error != ""))
      && (c in t.saved ==> Times(t.runs, c) == 1 + Times(t.losses, c))
      && Times(t.runs, c) <= 1 + Times(t.losses, c)
  {
    var t := After(Initial(names), steps);
    InitialInv(names);
    RunKeepsSystemInv(Initial(names), steps);
    assert CountsOk(t, c);
    assert c in t.saved ==> SavedOk(t.queue.commands, t.saved, t.agents, c);
  }

  /** Every rollout of every reachable state is within its bounds. */
  lemma RolloutsStayInBounds(names: set<AgentId>, steps: seq<Step>, rid: RolloutId)
    requires Possible(Initial(names), steps)
    requires rid in After(Initial(names), steps).queue.rollouts
    ensures var ro := After(Initial(names), steps).queue.rollouts[rid];
      && RolloutInv(ro)
      && Count(ro.targets, Active) <= ro.batch
      && ro.failed <= ro.maxFailures + ro.batch
      && ro.completed + ro.failed + Count(ro.targets, Active) + Count(ro.targets, Pending) == ro.total
      && (ro.state == Completed <==> ro.completed + ro.failed == ro.total && ro.failed <= ro.maxFailures)
      && (ro.state == Failed <==> ro.failed > ro.maxFailures)
  {
    var t := After(Initial(names), steps);
    InitialInv(names);
    RunKeepsSystemInv(Initial(names), steps);
    RolloutBounds(t.queue.rollouts[rid]);
  }

  lemma HandledIsStored(s: System, m: Message, now: int, arrives: bool)
    requires SystemInv(s) && Enabled(s, Handle(m, now, arrives))
    ensures var r := Apply(s, Handle(m, now, arrives));
      && m in r.wire
      && m.command in r.queue.commands && Terminal(r.queue.commands[m.command].state)
  {
    HandledMessage(s, m, now);
  }

  lemma StoredMessageIsInert(t: System, m: Message, now: int)
    requires SystemInv(t) && m in t.wire
    requires m.command in t.queue.commands && Terminal(t.queue.commands[m.command].state)
    ensures Complete(t.queue, m.agent, m.command, m.payload, m.error, now) == t.queue
  {
    assert WireOk(t.queue.commands, t.saved, m);
    assert SavedOk(t.queue.commands, t.saved, t.agents, m.command);
    RepostChangesNothing(t.queue, m.agent, m.command, m.payload, m.error, now);
  }

  /**
    A message that was handled once may be handled again after any further steps and any
    number of times: the tables stay exactly as they are.
   */
  lemma HandlingAgainChangesNothing(s: System, m: Message, now: int, arrives: bool, steps: seq<Step>, later: int)
    requires SystemInv(s) && Enabled(s, Handle(m, now, arrives))
    requires Possible(Apply(s, Handle(m, now, arrives)), steps)
    ensures var t := After(Apply(s, Handle(m, now, arrives)), steps);
      && Enabled(t, Handle(m, later, false))
      && Apply(t, Handle(m, later, false)) == t
  {
    var r := Apply(s, Handle(m, now, arrives));
    StepKeepsInv(s, Handle(m, now, arrives));
    HandledIsStored(s, m, now, arrives);
    SavedCommandsNeverRunAgain(r, steps);
    RunKeepsSystemInv(r, steps);
    StoredMessageIsInert(After(r, steps), m, later);
  }

  // ---------- what agents are given to execute ----------

  /** What a rollout was started with. */
  datatype Plan = Plan(agents: seq<AgentId>, op: string, params: string, batch: int, maxFailures: int)

  /** What was queued and what was started so far, by the id that it got. */
  datatype Ledger = Ledger(orders: map<CommandId, Order>, plans: map<RolloutId, Plan>)

  function Note(l: Ledger, id: nat, step: Step): Ledger {
    match step
    case QueueOne(a, op, params, now) => l.(orders := l.orders[id := Order(a, op, params, now)])
    case Roll(agents, op, params, batch, maxFailures, now) =>
      l.(plans := l.plans[id := Plan(agents, op, params, batch, maxFailures)])
    case _ => l
  }

  /** The ledger after a run. */
  ghost function Noted(s: System, steps: seq<Step>, l: Ledger): Ledger
    requires Possible(s, steps)
    decreases |steps|
  {
    if steps == [] then l else Noted(Apply(s, steps[0]), steps[1..], Note(l, s.queue.nextId, steps[0]))
  }

  /** The rollout runs what it was started with, on the same agents in the same order. */
  ghost predicate RunsPlan(ro: Rollout, plan: Plan) {
    && ro.op == plan.op && ro.params == plan.params
    && |ro.targets| == |plan.agents|
    && (forall k :: 0 <= k < |plan.agents| ==> ro.targets[k].agent == plan.agents[k])
    && (1 <= plan.batch <= |plan.agents| ==> ro.batch == plan.batch)
    && ro.maxFailures == (if plan.maxFailures < 0 then 0 else plan.maxFailures)
  }

  ghost predicate RunsPlans(rs: map<RolloutId, Rollout>, plans: map<RolloutId, Plan>) {
    forall rid :: rid in rs ==> rid in plans && RunsPlan(rs[rid], plans[rid])
  }

  /** An agent that received a command holds the operation and parameters of its row. */
  ghost predicate HoldsRow(cs: map<CommandId, Command>, agent: Agent) {
    agent.stage.Received? ==>
      var c := agent.stage.command;
      c in cs && agent.stage.op == cs[c].op && agent.stage.params == cs[c].params
  }

  ghost predicate AllHoldRows(cs: map<CommandId, Command>, agents: map<AgentId, Agent>) {
    forall a :: a in agents ==> HoldsRow(cs, agents[a])
  }

  /** The tables and the agents bear out what the ledger says. */
  ghost predicate Kept(q: Queue, agents: map<AgentId, Agent>, l: Ledger) {
    Ordered(q, l.orders) && RunsPlans(q.rollouts, l.plans) && AllHoldRows(q.commands, agents)
  }

  lemma SamePlansRun(rs: map<RolloutId, Rollout>, us: map<RolloutId, Rollout>, plans: map<RolloutId, Plan>)
    requires SamePlans(rs, us) && us.Keys == rs.Keys && RunsPlans(rs, plans)
    ensures RunsPlans(us, plans)
  {
    forall rid | rid in us ensures RunsPlan(us[rid], plans[rid]) {
      assert SamePlan(rs[rid], us[rid]) && RunsPlan(rs[rid], plans[rid]);
    }
  }

  lemma HeldRowsStay(cs: map<CommandId, Command>, ds: map<CommandId, Command>, agents: map<AgentId, Agent>)
    requires AllHoldRows(cs, agents) && SameOrders(cs, ds)
    ensures AllHoldRows(ds, agents)
  {
    forall a | a in agents ensures HoldsRow(ds, agents[a]) {
      assert HoldsRow(cs, agents[a]);
    }
  }

  /** A call that carries orders and plans on, and starts no rollout. */
  lemma CarryingKeeps(q: Queue, r: Queue, agents: map<AgentId, Agent>, l: Ledger)
    requires Kept(q, agents, l) && Carries(q, r) && r.rollouts.Keys == q.rollouts.Keys
    ensures Kept(r, agents, l)
  {
    CarriesKeepsOrdered(q, r, l.orders);
    SamePlansRun(q.rollouts, r.rollouts, l.plans);
    HeldRowsStay(q.commands, r.commands, agents);
  }

  lemma CompleteStartsNone(q: Queue, a: AgentId, c: CommandId, payload: string, error: string, now: int)
    ensures Complete(q, a, c, payload, error, now).rollouts.Keys == q.rollouts.Keys
  {
  }

  lemma EnqueueKeeps(q: Queue, agents: map<AgentId, Agent>, l: Ledger, a: AgentId, op: string, params: string, now: int)
    requires QueueInv(q) && Kept(q, agents, l)
    ensures Kept(Enqueue(q, a, op, params, now), agents, Note(l, q.nextId, QueueOne(a, op, params, now)))
  {
    EnqueueOrders(q, a, op, params, now, l.orders);
    EnqueueExact(q, a, op, params, now);
    HeldRowsStay(q.commands, Enqueue(q, a, op, params, now).commands, agents);
  }

  /** A new rollout runs its plan, and the others go on running theirs. */
  lemma StartedRunsPlans(rs: map<RolloutId, Rollout>, us: map<RolloutId, Rollout>, plans: map<RolloutId, Plan>,
                         id: RolloutId, plan: Plan)
    requires RunsPlans(rs, plans) && SamePlans(rs, us) && id !in rs && us.Keys == rs.Keys + {id}
    requires RunsPlan(us[id], plan)
    ensures RunsPlans(us, plans[id := plan])
  {
    forall rid | rid in rs ensures RunsPlan(us[rid], plans[rid]) {
      assert SamePlan(rs[rid], us[rid]) && RunsPlan(rs[rid], plans[rid]);
    }
  }

  lemma RollKeeps(q: Queue, holders: map<AgentId, Agent>, l: Ledger, agents: seq<AgentId>, op: string, params: string,
                  batch: int, maxFailures: int, now: int)
    requires QueueInv(q) && Kept(q, holders, l) && agents != []
    requires forall i, j :: 0 <= i < j < |agents| ==> agents[i] != agents[j]
    ensures Kept(StartRollout(q, agents, op, params, batch, maxFailures, now), holders,
                 Note(l, q.nextId, Roll(agents, op, params, batch, maxFailures, now)))
  {
    var r := StartRollout(q, agents, op, params, batch, maxFailures, now);
    StartRolloutCarries(q, agents, op, params, batch, maxFailures, now);
    RolloutAsAsked(agents, op, params, batch, maxFailures);
    CarriesKeepsOrdered(q, r, l.orders);
    StartedRunsPlans(q.rollouts, r.rollouts, l.plans, q.nextId, Plan(agents, op, params, batch, maxFailures));
    HeldRowsStay(q.commands, r.commands, holders);
  }

  lemma QueueStepKeeps(s: System, step: Step, l: Ledger)
    requires SystemInv(s) && Enabled(s, step) && ReachesQueue(step) && Kept(s.queue, s.agents, l)
    ensures Kept(Apply(s, step).queue, s.agents, Note(l, s.queue.nextId, step))
  {
    match step
    case QueueOne(a, op, params, now) => EnqueueKeeps(s.queue, s.agents, l, a, op, params, now);
    case Roll(agents, op, params, batch, maxFailures, now) =>
      RollKeeps(s.queue, s.agents, l, agents, op, params, batch, maxFailures, now);
    case Answer(a, now, found, arrives) =>
      DeliverCarries(s.queue, a, now, found);
      CarryingKeeps(s.queue, Deliver(s.queue, a, now, found), s.agents, l);
    case Handle(m, now, arrives) =>
      CompleteCarries(s.queue, m.agent, m.command, m.payload, m.error, now);
      CompleteStartsNone(s.queue, m.agent, m.command, m.payload, m.error, now);
      CarryingKeeps(s.queue, Complete(s.queue, m.agent, m.command, m.payload, m.error, now), s.agents, l);
  }

  /** What a step makes of an agent holds a row if the agent did, or the answer gave it one. */
  lemma StepHoldsRows(s: System, step: Step)
    requires Enabled(s, step) && AllHoldRows(s.queue.commands, s.agents)
    ensures AllHoldRows(s.queue.commands, Apply(s, step).agents)
  {
    match step
    case Answer(a, now, found, arrives) =>
    case Handle(m, now, arrives) =>
    case Crash(a) =>
    case _ =>
  }

  lemma StepKeepsLedger(s: System, step: Step, l: Ledger)
    requires SystemInv(s) && Enabled(s, step) && Kept(s.queue, s.agents, l)
    ensures Kept(Apply(s, step).queue, Apply(s, step).agents, Note(l, s.queue.nextId, step))
  {
    StepHoldsRows(s, step);
    StepKeepsOrders(s, step);
    HeldRowsStay(s.queue.commands, Apply(s, step).queue.commands, Apply(s, step).agents);
    if ReachesQueue(step) {
      QueueStepKeeps(s, step, l);
    } else {
      OtherStepsSpareQueue(s, step);
    }
  }

  /** No step changes what a command carries. */
  lemma StepKeepsOrders(s: System, step: Step)
    requires SystemInv(s) && Enabled(s, step)
    ensures SameOrders(s.queue.commands, Apply(s, step).queue.commands)
  {
    if step.QueueOne? {
      EnqueueExact(s.queue, step.agent, step.op, step.params, step.now);
    } else if step.Roll? {
      StartRolloutCarries(s.queue, step.agents, step.op, step.params, step.batch, step.maxFailures, step.now);
    } else if step.Answer? {
      DeliverCarries(s.queue, step.agent, step.now, step.found);
    } else if step.Handle? {
      var m := step.message;
      CompleteCarries(s.queue, m.agent, m.command, m.payload, m.error, step.now);
    } else {
      OtherStepsSpareQueue(s, step);
    }
  }

  lemma {:induction false} RunKeepsLedger(s: System, steps: seq<Step>, l: Ledger)
    requires SystemInv(s) && Possible(s, steps) && Kept(s.queue, s.agents, l)
    ensures Kept(After(s, steps).queue, After(s, steps).agents, Noted(s, steps, l))
    ensures SameOrders(s.queue.commands, After(s, steps).queue.commands)
    decreases |steps|
  {
    if steps != [] {
      StepKeepsInv(s, steps[0]);
      StepKeepsLedger(s, steps[0], l);
      StepKeepsOrders(s, steps[0]);
      RunKeepsLedger(Apply(s, steps[0]), steps[1..], Note(l, s.queue.nextId, steps[0]));
    }
  }

  /** The command is that of some target, and carries what the rollout was started with. */
  ghost predicate FromPlan(t: System, l: Ledger, c: CommandId)
    requires c in t.queue.commands
  {
    exists rid, k :: OfTarget(t.queue, rid, k, c)
      && rid in l.plans && k < |l.plans[rid].agents|
      && t.queue.commands[c].agent == l.plans[rid].agents[k]
      && t.queue.commands[c].op == l.plans[rid].op && t.queue.commands[c].params == l.plans[rid].params
  }

  /**
    In every reachable state a command carries the agent, operation, parameters and time
    that it was queued with, or it is the command of a target of a rollout, for that
    target's agent, with the operation and parameters that the rollout was started with.
    An agent that received a command holds exactly that operation and those parameters.
   */
  lemma CommandsCarryWhatWasOrdered(names: set<AgentId>, steps: seq<Step>, c: CommandId, a: AgentId)
    requires Possible(Initial(names), steps)
    ensures var t := After(Initial(names), steps); var row := t.queue.commands;
      var l := Noted(Initial(names), steps, Ledger(map[], map[]));
      && (c in l.orders ==>
            c in row && row[c].agent == l.orders[c].agent && row[c].op == l.orders[c].op
            && row[c].params == l.orders[c].params && row[c].created == l.orders[c].created)
      && (c in row && c !in l.orders ==> FromPlan(t, l, c))
      && (a in t.agents && t.agents[a].stage.Received? ==>
            var held := t.agents[a].stage;
            && held.command in row && row[held.command].agent == a
            && row[held.command].op == held.op && row[held.command].params == held.params)
  {
    var s, t, l := Initial(names), After(Initial(names), steps), Ledger(map[], map[]);
    InitialInv(names);
    RunKeepsSystemInv(s, steps);
    RunKeepsLedger(s, steps, l);
    if c in t.queue.commands && c !in Noted(s, steps, l).orders {
      RolloutCommandFromPlan(t, Noted(s, steps, l), c);
    }
    if a in t.agents {
      assert AgentOk(t.queue.commands, t.saved, a, t.agents[a]) && HoldsRow(t.queue.commands, t.agents[a]);
    }
  }

  lemma RolloutCommandFromPlan(t: System, l: Ledger, c: CommandId)
    requires Kept(t.queue, t.agents, l) && c in t.queue.commands && c !in l.orders
    ensures FromPlan(t, l, c)
  {
    var rid, k :| OfTarget(t.queue, rid, k, c);
    assert RunsPlan(t.queue.rollouts[rid], l.plans[rid]);
  }

  // ---------- the agent's loop ----------

  /** What the server does when the agent hears that answer to its poll. */
  ghost predicate ServerAnswers(s: System, a: AgentId, step: AgentStep, now: int) {
    match step
    case HeardNothing => Times(s.waiting, a) > 0 && MayDeliver(s.queue, a, now, None)
    case Heard(c, op, params) =>
      Times(s.waiting, a) > 0 && MayDeliver(s.queue, a, now, Some(c))
      && c in s.queue.commands && s.queue.commands[c].op == op && s.queue.commands[c].params == params
    case _ => true
  }

  /** Every step of the agent's loop, given the answer if it hears one, is made of protocol steps. */
  lemma LoopStepIsProtocolStep(s: System, a: AgentId, step: AgentStep, now: int) returns (steps: seq<Step>)
    requires a in s.agents && Allowed(s.agents[a], step) && ServerAnswers(s, a, step, now)
    ensures Possible(s, steps) && a in After(s, steps).agents
    ensures After(s, steps).agents[a] == Take(s.agents[a], step)
  {
    if step.Acked? {
      var m := MessageOf(a, s.agents[a].mem.pending.value);
      steps := [Post(a), Handle(m, now, true)];
      assert steps[1..] == [Handle(m, now, true)];
      OnePossible(Apply(s, Post(a)), steps[1]);
    } else {
      var one := match step
        case Counted => SendPoll(a)
        case GaveUp => DropPoll(a)
        case Heard(c, op, params) => Answer(a, now, Some(c), true)
        case HeardNothing => Answer(a, now, None, true)
        case Executed(r) => Run(a, r)
        case Renewed(certificate) => Adopt(a, certificate)
        case _ => SaveIdentity(a);
      steps := [one];
      OnePossible(s, one);
    }
  }

  lemma OnePossible(s: System, step: Step)
    requires Enabled(s, step)
    ensures Possible(s, [step]) && After(s, [step]) == Apply(s, step)
  {
  }
}

/**
  The command queue with its rollouts: the tables agent_commands, fleet_rollouts and
  fleet_rollout_targets as one value, and the repository calls on them as functions.
  Every call is one atomic step.  Fresh UUIDs are drawn from a counter, and created_at and
  delivered_at are ordered keys.
 */
module CommandQueue {
  import opened Basics
  import opened Rollouts

  /** Finished and Errored are a command's COMPLETED and FAILED. */
  datatype CommandState = Queued | Delivered | Finished | Errored
  datatype Command = Command(
    agent: AgentId,
    op: string,
    params: string,
    state: CommandState,
    result: Option<string>,
    error: string,
    created: int,
    delivered: Option<int>)

  datatype Queue = Queue(
    commands: map<CommandId, Command>,
    rollouts: map<RolloutId, Rollout>,
    nextId: nat)

  /** Two minutes, in the unit of the time keys. */
  const REDELIVERY := 120

  function NullableJson(s: string): Option<string> { if s == "" then None else Some(s) }

  /** What an agent reports for a command; a non-empty error makes it a failure. */
  datatype Response = Response(ok: bool, payload: string, error: string)

  // ---------- the calls ----------

  function NewCommand(a: AgentId, op: string, params: string, now: int): Command {
    Command(a, op, params, Queued, None, "", now, None)
  }

  function Enqueue(q: Queue, a: AgentId, op: string, params: string, now: int): Queue {
    q.(commands := q.commands[q.nextId := NewCommand(a, op, params, now)], nextId := q.nextId + 1)
  }

  /** DELIVERED commands of an agent that were delivered before the cutoff are QUEUED again. */
  function Requeue(cs: map<CommandId, Command>, a: AgentId, cutoff: int): (r: map<CommandId, Command>)
    ensures r.Keys == cs.Keys
  {
    map c | c in cs ::
      if cs[c].agent == a && cs[c].state == Delivered && cs[c].delivered.Some? && cs[c].delivered.value < cutoff
      then cs[c].(state := Queued, delivered := None) else cs[c]
  }

  /** c is a queued command of the agent, and none of its queued commands is older. */
  predicate IsNext(cs: map<CommandId, Command>, a: AgentId, c: CommandId) {
    && c in cs && cs[c].agent == a && cs[c].state == Queued
    && forall d :: d in cs && cs[d].agent == a && cs[d].state == Queued ==> cs[c].created <= cs[d].created
  }

  predicate NothingQueued(cs: map<CommandId, Command>, a: AgentId) {
    forall d :: d in cs && cs[d].agent == a ==> cs[d].state != Queued
  }

  /** What NextCommand may return. */
  predicate MayDeliver(q: Queue, a: AgentId, now: int, c: Option<CommandId>) {
    var cs := Requeue(q.commands, a, now - REDELIVERY);
    match c
    case Some(id) => IsNext(cs, a, id)
    case None => NothingQueued(cs, a)
  }

  /** The queue after NextCommand returned c.  Finding nothing rolls the requeueing back too. */
  function Deliver(q: Queue, a: AgentId, now: int, c: Option<CommandId>): Queue
    requires MayDeliver(q, a, now, c)
  {
    match c
    case Some(id) =>
      var cs := Requeue(q.commands, a, now - REDELIVERY);
      q.(commands := cs[id := cs[id].(state := Delivered, delivered := Some(now))])
    case None => q
  }

  function FinishedRow(c: Command, payload: string, error: string): Command {
    c.(state := if error != "" then Errored else Finished, result := NullableJson(payload), error := error)
  }

  /** The result goes into the command's row if the command is the agent's own; other rows stay. */
  function StoreResult(q: Queue, a: AgentId, c: CommandId, payload: string, error: string): Queue {
    if c in q.commands && q.commands[c].agent == a then
      q.(commands := q.commands[c := FinishedRow(q.commands[c], payload, error)])
    else q
  }

  /** The rollout whose targets hold the command, if any. */
  ghost function RolloutOf(rs: map<RolloutId, Rollout>, c: CommandId): (r: Option<RolloutId>)
    ensures r.Some? ==> r.value in rs && HasCommand(rs[r.value].targets, c)
    ensures r.None? ==> forall id :: id in rs ==> !HasCommand(rs[id].targets, c)
  {
    if exists id :: id in rs && HasCommand(rs[id].targets, c) then
      var id :| id in rs && HasCommand(rs[id].targets, c);
      Some(id)
    else None
  }

  /** One command per agent, with consecutive ids. */
  function BatchCommands(agents: seq<AgentId>, op: string, params: string, now: int, id: CommandId)
    : (r: map<CommandId, Command>)
    ensures forall c :: c in r <==> id <= c < id + |agents|
    ensures forall c :: c in r ==> r[c] == NewCommand(agents[c - id], op, params, now)
  {
    if agents == [] then map[]
    else
      var n := |agents| - 1;
      BatchCommands(agents[..n], op, params, now, id)[id + n := NewCommand(agents[n], op, params, now)]
  }

  /** queueRolloutBatch: one command for each of the first batch PENDING targets. */
  function QueueBatch(q: Queue, rid: RolloutId, now: int): Queue
    requires rid in q.rollouts
  {
    var ro := q.rollouts[rid];
    if ro.state != Running then q
    else
      var agents := PendingAgents(ro.targets, ro.batch);
      Queue(
        q.commands + BatchCommands(agents, ro.op, ro.params, now, q.nextId),
        q.rollouts[rid := ro.(targets := Activate(ro.targets, ro.batch, q.nextId))],
        q.nextId + |agents|)
  }

  /** advanceRollout on the rollout that holds the command. */
  function AdvanceIn(q: Queue, rid: RolloutId, c: CommandId, failed: bool, now: int): Queue
    requires rid in q.rollouts
  {
    var ro := q.rollouts[rid];
    NextBatch(q.(rollouts := q.rollouts[rid := Recorded(ro, c, failed)]), rid, now)
  }

  /** The end of advanceRollout: the next batch, once no target is active and budget is left. */
  function NextBatch(q: Queue, rid: RolloutId, now: int): Queue
    requires rid in q.rollouts
  {
    if WantsBatch(q.rollouts[rid]) then QueueBatch(q, rid, now) else q
  }

  /** CompleteCommand: store the result, then advance the rollout that waits for it. */
  ghost function Complete(q: Queue, a: AgentId, c: CommandId, payload: string, error: string, now: int): Queue
  {
    var q1 := StoreResult(q, a, c, payload, error);
    match RolloutOf(q1.rollouts, c)
    case None => q1
    case Some(rid) => AdvanceIn(q1, rid, c, error != "", now)
  }

  function Clamp(batch: int, n: nat): nat
    requires n > 0
  {
    var b := if batch < 1 then 1 else batch;
    if b > n then n else b
  }

  function NewTargets(agents: seq<AgentId>): (r: seq<Target>)
    ensures |r| == |agents|
    ensures forall i :: 0 <= i < |r| ==> r[i] == Target(agents[i], Pending, None)
  {
    seq(|agents|, i requires 0 <= i < |agents| => Target(agents[i], Pending, None))
  }

  function NewRollout(agents: seq<AgentId>, op: string, params: string, batch: int, maxFailures: int): Rollout
    requires agents != []
  {
    Rollout(op, params, Clamp(batch, |agents|), if maxFailures < 0 then 0 else maxFailures,
            Running, |agents|, 0, 0, NewTargets(agents))
  }

  /** CreateRollout on the agents of a non-empty group: insert the rows, then queue a batch. */
  function StartRollout(q: Queue, agents: seq<AgentId>, op: string, params: string,
                        batch: int, maxFailures: int, now: int): Queue
    requires agents != []
  {
    QueueBatch(Inserted(q, NewRollout(agents, op, params, batch, maxFailures)), q.nextId, now)
  }

  /** The tables with a new rollout under the next id. */
  function Inserted(q: Queue, ro: Rollout): Queue {
    Queue(q.commands, q.rollouts[q.nextId := ro], q.nextId + 1)
  }

  // ---------- the invariant ----------

  predicate Terminal(s: CommandState) { s == Finished || s == Errored }

  predicate Agree(t: TargetState, s: CommandState) {
    match t
    case Pending => false
    case Active => !Terminal(s)
    case Done => s == Finished
    case Broken => s == Errored
  }

  /** A target that carries a command follows that command's row. */
  ghost predicate TargetLinked(q: Queue, t: Target) {
    t.command.Some? ==>
      && t.command.value in q.commands
      && q.commands[t.command.value].agent == t.agent
      && Agree(t.state, q.commands[t.command.value].state)
  }

  ghost predicate Linked(q: Queue, rid: RolloutId)
    requires rid in q.rollouts
  {
    forall i :: 0 <= i < |q.rollouts[rid].targets| ==> TargetLinked(q, q.rollouts[rid].targets[i])
  }

  /** No two rollouts wait for the same command. */
  ghost predicate ApartFrom(xs: seq<Target>, ys: seq<Target>) {
    forall i, j :: 0 <= i < |xs| && 0 <= j < |ys| && xs[i].command.Some? ==> xs[i].command != ys[j].command
  }

  /** Ids are drawn from the counter, and targets and command rows fit together. */
  ghost predicate Coherent(q: Queue) {
    && (forall c :: c in q.commands ==> c < q.nextId)
    && (forall r :: r in q.rollouts ==> r < q.nextId)
    && (forall r :: r in q.rollouts ==> Linked(q, r))
    && (forall r :: r in q.rollouts ==> OwnCommands(q.rollouts[r].targets))
    && (forall r, s :: r in q.rollouts && s in q.rollouts && r != s ==>
          ApartFrom(q.rollouts[r].targets, q.rollouts[s].targets))
  }

  /** What holds of the tables in every reachable state. */
  ghost predicate QueueInv(q: Queue) {
    && Coherent(q)
    && forall r :: r in q.rollouts ==> RolloutInv(q.rollouts[r])
  }

  /**
    The report is about a command of this agent, and repeats the outcome if the command
    has one already.
   */
  ghost predicate Consistent(q: Queue, a: AgentId, c: CommandId, error: string) {
    && c in q.commands
    && q.commands[c].agent == a
    && (Terminal(q.commands[c].state) ==> (q.commands[c].state == Errored <==> error != ""))
  }

  // ---------- every call keeps the invariant ----------

  /** Rows change, but no command changes agent or becomes terminal or live again. */
  ghost predicate SameStanding(cs: map<CommandId, Command>, ds: map<CommandId, Command>) {
    forall c :: c in cs ==>
      && c in ds && ds[c].agent == cs[c].agent
      && (Terminal(cs[c].state) || Terminal(ds[c].state) ==> ds[c].state == cs[c].state)
  }

  lemma StandingKeepsLinks(q: Queue, r: Queue)
    requires QueueInv(q)
    requires r.rollouts == q.rollouts && r.nextId >= q.nextId
    requires SameStanding(q.commands, r.commands)
    requires forall c :: c in r.commands ==> c < r.nextId
    ensures QueueInv(r)
  {
  }

  lemma EnqueueKeepsInv(q: Queue, a: AgentId, op: string, params: string, now: int)
    requires QueueInv(q)
    ensures QueueInv(Enqueue(q, a, op, params, now))
  {
  }

  lemma DeliverStanding(q: Queue, a: AgentId, now: int, c: Option<CommandId>)
    requires MayDeliver(q, a, now, c)
    ensures var r := Deliver(q, a, now, c);
      SameStanding(q.commands, r.commands) && r.commands.Keys == q.commands.Keys
  {
  }

  /** A poll may take the command up: queued, or delivered more than two minutes ago. */
  predicate Eligible(cs: map<CommandId, Command>, a: AgentId, now: int, c: CommandId) {
    && c in cs && cs[c].agent == a
    && (cs[c].state == Queued
        || (cs[c].state == Delivered && cs[c].delivered.Some? && cs[c].delivered.value < now - REDELIVERY))
  }

  /**
    NextCommand hands out an oldest eligible command of the agent, and nothing exactly when
    there is none; what it hands out is not eligible again for two minutes.
   */
  lemma DeliversOldestEligible(q: Queue, a: AgentId, now: int, c: CommandId, later: int)
    ensures MayDeliver(q, a, now, Some(c)) <==>
      Eligible(q.commands, a, now, c)
      && forall d :: Eligible(q.commands, a, now, d) ==> q.commands[c].created <= q.commands[d].created
    ensures MayDeliver(q, a, now, None) <==> forall d :: !Eligible(q.commands, a, now, d)
    ensures MayDeliver(q, a, now, Some(c)) && later <= now + REDELIVERY ==>
      !Eligible(Deliver(q, a, now, Some(c)).commands, a, later, c)
  {
    var cs := Requeue(q.commands, a, now - REDELIVERY);
    assert forall d :: Eligible(q.commands, a, now, d) <==> d in cs && cs[d].agent == a && cs[d].state == Queued;
  }

  /**
    What a poll writes: the command that it hands out is marked and timed, the agent's other
    commands that were delivered over two minutes ago wait again, and nothing else changes.
   */
  lemma DeliverExact(q: Queue, a: AgentId, now: int, c: CommandId, d: CommandId)
    requires MayDeliver(q, a, now, Some(c)) && d in q.commands
    ensures var r := Deliver(q, a, now, Some(c)); var was := q.commands[d];
      && r.commands.Keys == q.commands.Keys && r.rollouts == q.rollouts && r.nextId == q.nextId
      && (d == c ==> r.commands[d] == was.(state := Delivered, delivered := Some(now)))
      && (d != c && Eligible(q.commands, a, now, d) && was.state == Delivered ==>
            r.commands[d] == was.(state := Queued, delivered := None))
      && (d != c && !(Eligible(q.commands, a, now, d) && was.state == Delivered) ==> r.commands[d] == was)
  {
  }

  lemma DeliverKeepsInv(q: Queue, a: AgentId, now: int, c: Option<CommandId>)
    requires QueueInv(q) && MayDeliver(q, a, now, c)
    ensures QueueInv(Deliver(q, a, now, c))
  {
    DeliverStanding(q, a, now, c);
    StandingKeepsLinks(q, Deliver(q, a, now, c));
  }

  /** Every command that a target waits for has an id below the counter. */
  lemma TargetsUseOldIds(q: Queue, rid: RolloutId)
    requires Coherent(q) && rid in q.rollouts
    ensures forall i :: 0 <= i < |q.rollouts[rid].targets| && q.rollouts[rid].targets[i].command.Some? ==>
      q.rollouts[rid].targets[i].command.value < q.nextId
  {
  }

  /** Row i after a batch is as before, or waits for the command of agent j of the batch. */
  ghost predicate RowOfBatch(ts: seq<Target>, n: nat, id: CommandId, i: nat, j: int)
    requires i < |ts|
  {
    var u := Activate(ts, n, id)[i];
    || u == ts[i]
    || (&& 0 <= j < |PendingAgents(ts, n)| && PendingAgents(ts, n)[j] == ts[i].agent
        && u == Target(ts[i].agent, Active, Some(id + j)))
  }

  lemma RowFitsBatch(ts: seq<Target>, n: nat, id: CommandId, i: nat)
    requires PendingIsSuffix(ts) && i < |ts|
    ensures RowOfBatch(ts, n, id, i, i - FirstPending(ts))
  {
    ActivateIsBatch(ts, n, id);
    PendingAgentsAt(ts, n);
    assert Activate(ts, n, id)[i] == BatchRow(ts[i], i, FirstPending(ts), n, id);
  }

  /** One row that a batch writes fits the command that the batch inserts. */
  lemma BatchRowLinked(q: Queue, rid: RolloutId, now: int, i: nat)
    requires rid in q.rollouts && q.rollouts[rid].state == Running
    requires PendingIsSuffix(q.rollouts[rid].targets) && i < |q.rollouts[rid].targets|
    requires TargetLinked(q, q.rollouts[rid].targets[i])
    requires forall c :: c in q.commands ==> c < q.nextId
    ensures var r := QueueBatch(q, rid, now);
      rid in r.rollouts && i < |r.rollouts[rid].targets| && TargetLinked(r, r.rollouts[rid].targets[i])
  {
    RowFitsBatch(q.rollouts[rid].targets, q.rollouts[rid].batch, q.nextId, i);
  }

  /** The commands of a batch are new and distinct. */
  lemma BatchOwnCommands(ts: seq<Target>, n: nat, id: CommandId)
    requires PendingIsSuffix(ts) && OwnCommands(ts)
    requires forall i :: 0 <= i < |ts| && ts[i].command.Some? ==> ts[i].command.value < id
    ensures OwnCommands(Activate(ts, n, id))
  {
    var us, k := Activate(ts, n, id), FirstPending(ts);
    ActivateIsBatch(ts, n, id);
    forall i, j | 0 <= i < j < |us| && us[i].command.Some? ensures us[i].command != us[j].command {
      assert us[i] == BatchRow(ts[i], i, k, n, id);
      assert us[j] == BatchRow(ts[j], j, k, n, id);
    }
  }

  /** A batch leaves the other rollouts linked and apart. */
  lemma BatchSparesOthers(q: Queue, rid: RolloutId, s: RolloutId, now: int)
    requires Coherent(q) && rid in q.rollouts && BetweenBatches(q.rollouts[rid])
    requires s in q.rollouts && s != rid
    ensures var r := QueueBatch(q, rid, now);
      && s in r.rollouts && rid in r.rollouts && r.rollouts[s] == q.rollouts[s]
      && Linked(r, s)
      && ApartFrom(r.rollouts[rid].targets, q.rollouts[s].targets)
      && ApartFrom(q.rollouts[s].targets, r.rollouts[rid].targets)
  {
    var ro := q.rollouts[rid];
    var r := QueueBatch(q, rid, now);
    var ts, us, vs := ro.targets, r.rollouts[rid].targets, q.rollouts[s].targets;
    ActivateIsBatch(ts, ro.batch, q.nextId);
    TargetsUseOldIds(q, s);
    assert BatchAt(ts, us, FirstPending(ts), ro.batch, q.nextId);
    assert Linked(q, s);
    forall i | 0 <= i < |vs| ensures TargetLinked(r, vs[i]) {
      assert TargetLinked(q, vs[i]);
    }
    assert ApartFrom(ts, vs) && ApartFrom(vs, ts);
    forall i, j | 0 <= i < |us| && 0 <= j < |vs|
      ensures us[i].command.Some? || vs[j].command.Some? ==> us[i].command != vs[j].command
    {
      assert us[i] == BatchRow(ts[i], i, FirstPending(ts), ro.batch, q.nextId);
      assert vs[j].command.Some? ==> vs[j].command.value < q.nextId;
    }
  }

  lemma BatchIsLinked(q: Queue, rid: RolloutId, now: int)
    requires Coherent(q) && rid in q.rollouts && BetweenBatches(q.rollouts[rid])
    ensures rid in QueueBatch(q, rid, now).rollouts && Linked(QueueBatch(q, rid, now), rid)
  {
    var r := QueueBatch(q, rid, now);
    assert Linked(q, rid);
    forall i | 0 <= i < |r.rollouts[rid].targets| ensures TargetLinked(r, r.rollouts[rid].targets[i]) {
      BatchRowLinked(q, rid, now, i);
    }
  }

  lemma QueueBatchKeepsCoherent(q: Queue, rid: RolloutId, now: int)
    requires Coherent(q) && rid in q.rollouts && BetweenBatches(q.rollouts[rid])
    ensures Coherent(QueueBatch(q, rid, now))
  {
    var r := QueueBatch(q, rid, now);
    TargetsUseOldIds(q, rid);
    BatchOwnCommands(q.rollouts[rid].targets, q.rollouts[rid].batch, q.nextId);
    BatchIsLinked(q, rid, now);
    forall s | s in q.rollouts && s != rid
      ensures Linked(r, s)
        && ApartFrom(r.rollouts[rid].targets, r.rollouts[s].targets)
        && ApartFrom(r.rollouts[s].targets, r.rollouts[rid].targets)
    {
      BatchSparesOthers(q, rid, s, now);
    }
  }

  lemma QueueBatchKeepsInv(q: Queue, rid: RolloutId, now: int)
    requires Coherent(q) && rid in q.rollouts && BetweenBatches(q.rollouts[rid])
    requires forall s :: s in q.rollouts && s != rid ==> RolloutInv(q.rollouts[s])
    ensures QueueInv(QueueBatch(q, rid, now))
  {
    QueueBatchKeepsCoherent(q, rid, now);
    BatchKeepsInv(q.rollouts[rid], q.nextId);
  }

  /** Inserting a rollout whose targets carry no command yet. */
  lemma InsertKeepsCoherent(q: Queue, ro: Rollout)
    requires Coherent(q)
    requires forall i :: 0 <= i < |ro.targets| ==> ro.targets[i].command == None
    ensures Coherent(Inserted(q, ro))
  {
  }

  lemma InsertKeepsInv(q: Queue, ro: Rollout, now: int)
    requires QueueInv(q)
    requires BetweenBatches(ro)
    requires forall i :: 0 <= i < |ro.targets| ==> ro.targets[i].command == None
    ensures QueueInv(QueueBatch(Inserted(q, ro), q.nextId, now))
  {
    OthersKeepInv(q, Inserted(q, ro).rollouts, q.nextId);
    InsertKeepsCoherent(q, ro);
    QueueBatchKeepsInv(Inserted(q, ro), q.nextId, now);
  }

  /** A new rollout is ready for its first batch, whatever batch size and budget were asked for. */
  lemma NewRolloutReady(agents: seq<AgentId>, op: string, params: string, batch: int, maxFailures: int)
    requires agents != []
    requires forall i, j :: 0 <= i < j < |agents| ==> agents[i] != agents[j]
    ensures BetweenBatches(NewRollout(agents, op, params, batch, maxFailures))
  {
    AllPending(NewTargets(agents));
  }

  /**
    A new rollout runs what was asked for on the agents in their order, with the batch size
    asked for as far as it lies between one and their number, and no failures allowed when a
    negative number was asked for.
   */
  lemma RolloutAsAsked(agents: seq<AgentId>, op: string, params: string, batch: int, maxFailures: int)
    requires agents != []
    ensures var ro := NewRollout(agents, op, params, batch, maxFailures);
      && ro.op == op && ro.params == params && ro.state == Running
      && ro.total == |agents| == |ro.targets| && ro.completed == 0 && ro.failed == 0
      && (forall i :: 0 <= i < |agents| ==> ro.targets[i] == Target(agents[i], Pending, None))
      && (1 <= batch <= |agents| ==> ro.batch == batch)
      && (batch < 1 ==> ro.batch == 1)
      && (batch > |agents| ==> ro.batch == |agents|)
      && (maxFailures >= 0 ==> ro.maxFailures == maxFailures)
      && (maxFailures < 0 ==> ro.maxFailures == 0)
  {
  }

  lemma StartRolloutKeepsInv(q: Queue, agents: seq<AgentId>, op: string, params: string,
                             batch: int, maxFailures: int, now: int)
    requires QueueInv(q) && agents != []
    requires forall i, j :: 0 <= i < j < |agents| ==> agents[i] != agents[j]
    ensures QueueInv(StartRollout(q, agents, op, params, batch, maxFailures, now))
  {
    var ro := NewRollout(agents, op, params, batch, maxFailures);
    NewRolloutReady(agents, op, params, batch, maxFailures);
    InsertKeepsInv(q, ro, now);
  }

  // ---------- results ----------

  /** The only rollout and target that wait for a command. */
  lemma OnlyHolder(q: Queue, c: CommandId, rid: RolloutId, k: nat)
    requires Coherent(q)
    requires rid in q.rollouts && k < |q.rollouts[rid].targets| && q.rollouts[rid].targets[k].command == Some(c)
    ensures RolloutOf(q.rollouts, c) == Some(rid)
  {
  }

  /** The tables after a result is stored and its target, the k-th of rollout rid, is marked. */
  function AfterRecord(q: Queue, a: AgentId, c: CommandId, payload: string, error: string, rid: RolloutId): Queue
    requires rid in q.rollouts
  {
    var q1 := StoreResult(q, a, c, payload, error);
    q1.(rollouts := q1.rollouts[rid := Recorded(q.rollouts[rid], c, error != "")])
  }

  /** The command is in the tables and belongs to the agent. */
  predicate OwnCommand(q: Queue, a: AgentId, c: CommandId) { c in q.commands && q.commands[c].agent == a }

  lemma RecordKeepsLinks(q: Queue, a: AgentId, c: CommandId, payload: string, error: string,
                         rid: RolloutId, k: nat, s: RolloutId)
    requires Coherent(q) && OwnCommand(q, a, c)
    requires rid in q.rollouts && k < |q.rollouts[rid].targets| && q.rollouts[rid].targets[k].command == Some(c)
    requires q.rollouts[rid].targets[k].state != Pending
    requires s in q.rollouts
    ensures Linked(AfterRecord(q, a, c, payload, error, rid), s)
  {
    var r := AfterRecord(q, a, c, payload, error, rid);
    var ts, us := q.rollouts[s].targets, r.rollouts[s].targets;
    assert Linked(q, s);
    forall i | 0 <= i < |us| ensures TargetLinked(r, us[i]) {
      assert TargetLinked(q, ts[i]);
      if ts[i].command == Some(c) {
        OnlyHolder(q, c, s, i);
        OnlyHolder(q, c, rid, k);
        assert us[i] == ts[i].(state := Outcome(error != ""));
      } else {
        assert us[i] == ts[i];
      }
    }
  }

  /** The targets wait for the same commands as before. */
  ghost predicate SameCommands(ts: seq<Target>, us: seq<Target>) {
    |us| == |ts| && forall i :: 0 <= i < |us| ==> us[i].command == ts[i].command
  }

  lemma SameCommandsApart(ts: seq<Target>, us: seq<Target>, vs: seq<Target>)
    requires SameCommands(ts, us) && ApartFrom(ts, vs) && ApartFrom(vs, ts)
    ensures ApartFrom(us, vs) && ApartFrom(vs, us)
  {
  }

  lemma SameCommandsOwn(ts: seq<Target>, us: seq<Target>)
    requires SameCommands(ts, us) && OwnCommands(ts)
    ensures OwnCommands(us)
  {
  }

  /** Storing a result and marking its target keeps the tables coherent. */
  lemma RecordKeepsCoherent(q: Queue, a: AgentId, c: CommandId, payload: string, error: string,
                            rid: RolloutId, k: nat)
    requires Coherent(q) && OwnCommand(q, a, c)
    requires rid in q.rollouts && k < |q.rollouts[rid].targets| && q.rollouts[rid].targets[k].command == Some(c)
    requires q.rollouts[rid].targets[k].state != Pending
    ensures Coherent(AfterRecord(q, a, c, payload, error, rid))
  {
    var r := AfterRecord(q, a, c, payload, error, rid);
    var ts, us := q.rollouts[rid].targets, r.rollouts[rid].targets;
    assert SameCommands(ts, us);
    SameCommandsOwn(ts, us);
    forall s | s in r.rollouts ensures Linked(r, s) {
      RecordKeepsLinks(q, a, c, payload, error, rid, k, s);
    }
    forall s | s in r.rollouts && s != rid
      ensures ApartFrom(us, r.rollouts[s].targets) && ApartFrom(r.rollouts[s].targets, us)
    {
      SameCommandsApart(ts, us, q.rollouts[s].targets);
    }
  }

  /** The command, if it belongs to a rollout, has a result already exactly when its target has. */
  lemma TargetOf(q: Queue, a: AgentId, c: CommandId, error: string) returns (k: nat)
    requires QueueInv(q) && Consistent(q, a, c, error)
    requires RolloutOf(q.rollouts, c).Some?
    ensures var ts := q.rollouts[RolloutOf(q.rollouts, c).value].targets;
      && k < |ts| && ts[k].command == Some(c)
      && ts[k].state == if Terminal(q.commands[c].state) then Outcome(error != "") else Active
  {
    var rid := RolloutOf(q.rollouts, c).value;
    var ts := q.rollouts[rid].targets;
    k :| 0 <= k < |ts| && ts[k].command == Some(c);
    assert Linked(q, rid) && TargetLinked(q, ts[k]);
  }

  /** A report on a command outside every rollout. */
  lemma LoneReport(q: Queue, a: AgentId, c: CommandId, payload: string, error: string)
    requires QueueInv(q) && RolloutOf(q.rollouts, c).None?
    ensures QueueInv(StoreResult(q, a, c, payload, error))
  {
  }

  ghost predicate OnlyRolloutChanges(rs: map<RolloutId, Rollout>, us: map<RolloutId, Rollout>, rid: RolloutId) {
    && rid in rs && rid in us
    && forall s :: s != rid ==> (s in rs <==> s in us) && (s in rs ==> us[s] == rs[s])
  }

  lemma NextBatchKeepsInv(q: Queue, rid: RolloutId, now: int)
    requires Coherent(q) && rid in q.rollouts
    requires forall s :: s in q.rollouts && s != rid ==> RolloutInv(q.rollouts[s])
    requires if WantsBatch(q.rollouts[rid]) then BetweenBatches(q.rollouts[rid]) else RolloutInv(q.rollouts[rid])
    ensures var r := NextBatch(q, rid, now);
      && QueueInv(r)
      && OnlyRolloutChanges(q.rollouts, r.rollouts, rid)
      && Remaining(r.rollouts[rid]) <= Remaining(q.rollouts[rid])
  {
    if WantsBatch(q.rollouts[rid]) {
      QueueBatchKeepsInv(q, rid, now);
      BatchKeepsInv(q.rollouts[rid], q.nextId);
    }
  }

  /** A first result for a target of rollout rid: one step less to go, and a batch may be due. */
  lemma FirstRecord(q: Queue, a: AgentId, c: CommandId, payload: string, error: string, rid: RolloutId)
    requires QueueInv(q) && Consistent(q, a, c, error) && !Terminal(q.commands[c].state)
    requires RolloutOf(q.rollouts, c) == Some(rid)
    ensures var r := AfterRecord(q, a, c, payload, error, rid);
      && Coherent(r)
      && Remaining(r.rollouts[rid]) < Remaining(q.rollouts[rid])
      && (if WantsBatch(r.rollouts[rid]) then BetweenBatches(r.rollouts[rid]) else RolloutInv(r.rollouts[rid]))
  {
    var k := TargetOf(q, a, c, error);
    RecordKeepsCoherent(q, a, c, payload, error, rid, k);
    var ro := q.rollouts[rid];
    assert RolloutInv(ro) && OwnCommands(ro.targets);
    FirstResult(ro, k, c, error != "");
  }

  lemma CompleteInRollout(q: Queue, a: AgentId, c: CommandId, payload: string, error: string,
                          now: int, rid: RolloutId)
    requires RolloutOf(q.rollouts, c) == Some(rid)
    ensures Complete(q, a, c, payload, error, now) == NextBatch(AfterRecord(q, a, c, payload, error, rid), rid, now)
  {
  }

  lemma OthersKeepInv(q: Queue, rs: map<RolloutId, Rollout>, rid: RolloutId)
    requires QueueInv(q) && rid in rs && rs == q.rollouts[rid := rs[rid]]
    ensures forall s :: s in rs && s != rid ==> RolloutInv(rs[s])
  {
  }

  lemma FirstRolloutCompletion(q: Queue, a: AgentId, c: CommandId, payload: string, error: string,
                               now: int, rid: RolloutId)
    requires QueueInv(q) && Consistent(q, a, c, error) && !Terminal(q.commands[c].state)
    requires RolloutOf(q.rollouts, c) == Some(rid)
    ensures var r := Complete(q, a, c, payload, error, now);
      && QueueInv(r)
      && OnlyRolloutChanges(q.rollouts, r.rollouts, rid)
      && Remaining(r.rollouts[rid]) < Remaining(q.rollouts[rid])
  {
    var r := AfterRecord(q, a, c, payload, error, rid);
    FirstRecord(q, a, c, payload, error, rid);
    OthersKeepInv(q, r.rollouts, rid);
    NextBatchKeepsInv(r, rid, now);
    CompleteInRollout(q, a, c, payload, error, now, rid);
  }

  /**
    The first result of a command: the invariant survives, and the rollout that waits for
    it gets strictly closer to its end while the others stay.
   */
  lemma FirstCompletion(q: Queue, a: AgentId, c: CommandId, payload: string, error: string, now: int)
    requires QueueInv(q) && Consistent(q, a, c, error) && !Terminal(q.commands[c].state)
    ensures var r := Complete(q, a, c, payload, error, now);
      && QueueInv(r)
      && match RolloutOf(q.rollouts, c)
         case None => r.rollouts == q.rollouts
         case Some(s) =>
           && OnlyRolloutChanges(q.rollouts, r.rollouts, s)
           && Remaining(r.rollouts[s]) < Remaining(q.rollouts[s])
  {
    match RolloutOf(q.rollouts, c)
    case None => LoneReport(q, a, c, payload, error);
    case Some(rid) => FirstRolloutCompletion(q, a, c, payload, error, now, rid);
  }

  /** A repeated outcome: no rollout, target or counter changes and no batch is queued. */
  lemma RepeatedCompletion(q: Queue, a: AgentId, c: CommandId, payload: string, error: string, now: int)
    requires QueueInv(q) && Consistent(q, a, c, error) && Terminal(q.commands[c].state)
    ensures var r := Complete(q, a, c, payload, error, now);
      && r.rollouts == q.rollouts && r.nextId == q.nextId
      && r.commands == q.commands[c := FinishedRow(q.commands[c], payload, error)]
      && QueueInv(r)
  {
    var q1 := StoreResult(q, a, c, payload, error);
    StandingKeepsLinks(q, q1);
    if RolloutOf(q.rollouts, c).Some? {
      var rid := RolloutOf(q.rollouts, c).value;
      var k := TargetOf(q, a, c, error);
      RepeatedResult(q.rollouts[rid], k, c, error != "");
      assert q1.rollouts[rid := q.rollouts[rid]] == q.rollouts;
    }
  }

  /** The row of the command holds exactly this result. */
  predicate Stored(q: Queue, c: CommandId, payload: string, error: string) {
    c in q.commands && q.commands[c] == FinishedRow(q.commands[c], payload, error)
  }

  /** Posting a stored result again leaves the tables exactly as they are. */
  lemma RepostChangesNothing(q: Queue, a: AgentId, c: CommandId, payload: string, error: string, now: int)
    requires QueueInv(q) && Stored(q, c, payload, error) && q.commands[c].agent == a
    ensures Complete(q, a, c, payload, error, now) == q
  {
    RepeatedCompletion(q, a, c, payload, error, now);
    assert q.commands[c := q.commands[c]] == q.commands;
  }

  /** Advancing a rollout only adds QUEUED commands with new ids. */
  lemma AdvanceAddsCommands(q: Queue, rid: RolloutId, c: CommandId, failed: bool, now: int)
    requires rid in q.rollouts
    requires forall d :: d in q.commands ==> d < q.nextId
    ensures var r := AdvanceIn(q, rid, c, failed, now);
      && AddsQueued(q, r)
      && r.nextId >= q.nextId
  {
  }

  /** Every row of q is a row of r, and the other rows of r are new and QUEUED. */
  ghost predicate AddsQueued(q: Queue, r: Queue) {
    && (forall d :: d in q.commands ==> d in r.commands && r.commands[d] == q.commands[d])
    && (forall d :: d in r.commands && d !in q.commands ==> d >= q.nextId && r.commands[d].state == Queued)
  }

  /** The row reports this result, and is otherwise the row it was. */
  predicate Reports(row: Command, was: Command, payload: string, error: string) {
    && row.agent == was.agent && row.op == was.op && row.params == was.params
    && row.created == was.created && row.delivered == was.delivered
    && row.error == error
    && (error == "" ==> row.state == Finished) && (error != "" ==> row.state == Errored)
    && (payload == "" ==> row.result == None) && (payload != "" ==> row.result == Some(payload))
  }

  /** Completing a command stores its result and changes no other existing row. */
  lemma CompletionStores(q: Queue, a: AgentId, c: CommandId, payload: string, error: string, now: int)
    requires QueueInv(q) && Consistent(q, a, c, error)
    ensures var r := Complete(q, a, c, payload, error, now);
      && Stored(r, c, payload, error)
      && Reports(r.commands[c], q.commands[c], payload, error)
      && AddsQueued(StoreResult(q, a, c, payload, error), r)
      && r.nextId >= q.nextId
  {
    var q1 := StoreResult(q, a, c, payload, error);
    if RolloutOf(q.rollouts, c).Some? {
      var rid := RolloutOf(q.rollouts, c).value;
      AdvanceAddsCommands(q1, rid, c, error != "", now);
    }
  }

  lemma CompleteKeepsInv(q: Queue, a: AgentId, c: CommandId, payload: string, error: string, now: int)
    requires QueueInv(q) && Consistent(q, a, c, error)
    ensures QueueInv(Complete(q, a, c, payload, error, now))
  {
    if Terminal(q.commands[c].state) {
      RepeatedCompletion(q, a, c, payload, error, now);
    } else {
      FirstCompletion(q, a, c, payload, error, now);
    }
  }

  // ---------- what commands carry ----------

  /** What a command was queued as. */
  datatype Order = Order(agent: AgentId, op: string, params: string, created: int)

  predicate Fits(row: Command, order: Order) {
    row.agent == order.agent && row.op == order.op && row.params == order.params && row.created == order.created
  }

  /** No command changes its agent, operation, parameters or creation time. */
  ghost predicate SameOrders(cs: map<CommandId, Command>, ds: map<CommandId, Command>) {
    forall c :: c in cs ==>
      c in ds && Fits(ds[c], Order(cs[c].agent, cs[c].op, cs[c].params, cs[c].created))
  }

  /** The command is that of target k of the rollout: for its agent, with the operation of the rollout. */
  ghost predicate OfTarget(q: Queue, rid: RolloutId, k: int, c: CommandId) {
    && rid in q.rollouts && 0 <= k < |q.rollouts[rid].targets| && c in q.commands
    && var ro := q.rollouts[rid];
       && ro.targets[k].command == Some(c) && ro.targets[k].agent == q.commands[c].agent
       && q.commands[c].op == ro.op && q.commands[c].params == ro.params
  }

  ghost predicate OfRollout(q: Queue, c: CommandId) { exists rid, k :: OfTarget(q, rid, k, c) }

  /** Every command is as it was ordered, or comes from a rollout and carries what that runs. */
  ghost predicate Ordered(q: Queue, orders: map<CommandId, Order>) {
    && (forall c :: c in orders ==> c in q.commands)
    && forall c :: c in q.commands ==> if c in orders then Fits(q.commands[c], orders[c]) else OfRollout(q, c)
  }

  /** A rollout goes on running the same on the same agents, and keeps the commands it has. */
  ghost predicate SamePlan(ro: Rollout, us: Rollout) {
    && us.op == ro.op && us.params == ro.params && us.batch == ro.batch && us.maxFailures == ro.maxFailures
    && |us.targets| == |ro.targets|
    && forall k :: 0 <= k < |ro.targets| ==>
         && us.targets[k].agent == ro.targets[k].agent
         && (ro.targets[k].command.Some? ==> us.targets[k].command == ro.targets[k].command)
  }

  ghost predicate SamePlans(rs: map<RolloutId, Rollout>, us: map<RolloutId, Rollout>) {
    forall rid :: rid in rs ==> rid in us && SamePlan(rs[rid], us[rid])
  }

  /** Orders and plans stay, and what is new is a command of some rollout. */
  ghost predicate Carries(q: Queue, r: Queue) {
    && SameOrders(q.commands, r.commands)
    && SamePlans(q.rollouts, r.rollouts)
    && forall c :: c in r.commands && c !in q.commands ==> OfRollout(r, c)
  }

  lemma CarriedStaysOfRollout(q: Queue, r: Queue, c: CommandId)
    requires Carries(q, r) && OfRollout(q, c)
    ensures OfRollout(r, c)
  {
    var rid, k :| OfTarget(q, rid, k, c);
    assert SamePlan(q.rollouts[rid], r.rollouts[rid]);
    assert OfTarget(r, rid, k, c);
  }

  lemma CarriesKeepsOrdered(q: Queue, r: Queue, orders: map<CommandId, Order>)
    requires Ordered(q, orders) && Carries(q, r)
    ensures Ordered(r, orders)
  {
    forall c | c in r.commands && c !in orders ensures OfRollout(r, c) {
      if c in q.commands { CarriedStaysOfRollout(q, r, c); }
    }
  }

  lemma CarriesOn(q: Queue, r: Queue, t: Queue)
    requires Carries(q, r) && Carries(r, t)
    ensures Carries(q, t)
  {
    forall c | c in t.commands && c !in q.commands ensures OfRollout(t, c) {
      if c in r.commands { CarriedStaysOfRollout(r, t, c); }
    }
    forall rid | rid in q.rollouts ensures SamePlan(q.rollouts[rid], t.rollouts[rid]) {
      assert SamePlan(q.rollouts[rid], r.rollouts[rid]) && SamePlan(r.rollouts[rid], t.rollouts[rid]);
    }
  }

  /** A queued command carries what it was ordered with, under the next id, and nothing else changes. */
  lemma EnqueueExact(q: Queue, a: AgentId, op: string, params: string, now: int)
    requires forall c :: c in q.commands ==> c < q.nextId
    ensures var r := Enqueue(q, a, op, params, now);
      && r.commands.Keys == q.commands.Keys + {q.nextId} && q.nextId !in q.commands
      && Fits(r.commands[q.nextId], Order(a, op, params, now))
      && r.commands[q.nextId].state == Queued && r.commands[q.nextId].result == None
      && (forall c :: c in q.commands ==> r.commands[c] == q.commands[c])
      && r.rollouts == q.rollouts
  {
  }

  lemma SameRolloutsOfRollout(q: Queue, r: Queue, c: CommandId)
    requires r.rollouts == q.rollouts && c in q.commands && c in r.commands && r.commands[c] == q.commands[c]
    requires OfRollout(q, c)
    ensures OfRollout(r, c)
  {
    var rid, k :| OfTarget(q, rid, k, c);
    assert OfTarget(r, rid, k, c);
  }

  lemma EnqueueOrders(q: Queue, a: AgentId, op: string, params: string, now: int, orders: map<CommandId, Order>)
    requires (forall c :: c in q.commands ==> c < q.nextId) && Ordered(q, orders)
    ensures Ordered(Enqueue(q, a, op, params, now), orders[q.nextId := Order(a, op, params, now)])
  {
    var r := Enqueue(q, a, op, params, now);
    EnqueueExact(q, a, op, params, now);
    forall c | c in q.commands && c !in orders ensures OfRollout(r, c) {
      SameRolloutsOfRollout(q, r, c);
    }
  }

  lemma SamePlanItself(ro: Rollout)
    ensures SamePlan(ro, ro)
  {
  }

  lemma DeliverCarries(q: Queue, a: AgentId, now: int, c: Option<CommandId>)
    requires MayDeliver(q, a, now, c)
    ensures Carries(q, Deliver(q, a, now, c))
    ensures c.Some? ==> var row := Deliver(q, a, now, c).commands[c.value];
      row.state == Delivered && row.delivered == Some(now)
  {
  }

  /** A batch keeps the plan of its rollout. */
  lemma BatchKeepsPlan(ro: Rollout, id: CommandId)
    requires PendingIsSuffix(ro.targets) && QueuedHaveCommands(ro.targets)
    ensures SamePlan(ro, ro.(targets := Activate(ro.targets, ro.batch, id)))
  {
    ActivateIsBatch(ro.targets, ro.batch, id);
    FirstPendingSplits(ro.targets);
    var us := Activate(ro.targets, ro.batch, id);
    forall k | 0 <= k < |ro.targets|
      ensures us[k].agent == ro.targets[k].agent
      ensures ro.targets[k].command.Some? ==> us[k].command == ro.targets[k].command
    {
      assert us[k] == BatchRow(ro.targets[k], k, FirstPending(ro.targets), ro.batch, id);
    }
  }

  /** A new command of a batch is that of the target at its place behind the first PENDING one. */
  lemma BatchCommandOfTarget(q: Queue, rid: RolloutId, now: int, c: CommandId)
    requires rid in q.rollouts && q.rollouts[rid].state == Running
    requires PendingIsSuffix(q.rollouts[rid].targets)
    requires c in QueueBatch(q, rid, now).commands && c !in q.commands
    ensures var r := QueueBatch(q, rid, now);
      && OfTarget(r, rid, FirstPending(q.rollouts[rid].targets) + (c - q.nextId), c)
      && r.commands[c].created == now && r.commands[c].state == Queued
  {
    var ro := q.rollouts[rid];
    BatchTarget(ro.targets, ro.batch, q.nextId, c - q.nextId);
  }

  /** The target that the j-th agent of a batch stands for. */
  lemma BatchTarget(ts: seq<Target>, n: nat, id: CommandId, j: int)
    requires PendingIsSuffix(ts) && 0 <= j < |PendingAgents(ts, n)|
    ensures var k := FirstPending(ts) + j;
      && k < |ts|
      && Activate(ts, n, id)[k] == Target(PendingAgents(ts, n)[j], Active, Some(id + j))
  {
    var k := FirstPending(ts) + j;
    ActivateIsBatch(ts, n, id);
    PendingAgentsAt(ts, n);
    assert Activate(ts, n, id)[k] == BatchRow(ts[k], k, FirstPending(ts), n, id);
  }

  lemma QueueBatchCarries(q: Queue, rid: RolloutId, now: int)
    requires rid in q.rollouts && PendingIsSuffix(q.rollouts[rid].targets)
    requires QueuedHaveCommands(q.rollouts[rid].targets)
    requires forall c :: c in q.commands ==> c < q.nextId
    ensures Carries(q, QueueBatch(q, rid, now))
  {
    if q.rollouts[rid].state == Running {
      var r := QueueBatch(q, rid, now);
      BatchKeepsPlan(q.rollouts[rid], q.nextId);
      forall c | c in r.commands && c !in q.commands ensures OfRollout(r, c) {
        BatchCommandOfTarget(q, rid, now, c);
      }
    }
  }

  /** A new rollout leaves the others and all commands alone. */
  lemma InsertCarries(q: Queue, ro: Rollout)
    requires forall r :: r in q.rollouts ==> r < q.nextId
    ensures Carries(q, Inserted(q, ro))
  {
  }

  /** The new rollout runs what was asked for, on the agents in their order. */
  lemma StartRolloutCarries(q: Queue, agents: seq<AgentId>, op: string, params: string,
                            batch: int, maxFailures: int, now: int)
    requires QueueInv(q) && agents != []
    requires forall i, j :: 0 <= i < j < |agents| ==> agents[i] != agents[j]
    ensures var r := StartRollout(q, agents, op, params, batch, maxFailures, now);
      && Carries(q, r)
      && q.nextId in r.rollouts && q.nextId !in q.rollouts
      && r.rollouts.Keys == q.rollouts.Keys + {q.nextId}
      && SamePlan(NewRollout(agents, op, params, batch, maxFailures), r.rollouts[q.nextId])
  {
    var ro := NewRollout(agents, op, params, batch, maxFailures);
    NewRolloutReady(agents, op, params, batch, maxFailures);
    InsertCarries(q, ro);
    var p := Inserted(q, ro);
    QueueBatchCarries(p, q.nextId, now);
    CarriesOn(q, p, QueueBatch(p, q.nextId, now));
    BatchKeepsPlan(ro, p.nextId);
  }

  lemma StoreCarries(q: Queue, a: AgentId, c: CommandId, payload: string, error: string)
    ensures Carries(q, StoreResult(q, a, c, payload, error))
  {
  }

  lemma RecordedKeepsPlan(ro: Rollout, c: CommandId, failed: bool)
    ensures SamePlan(ro, Recorded(ro, c, failed))
  {
  }

  lemma RecordCarries(q: Queue, a: AgentId, c: CommandId, payload: string, error: string, rid: RolloutId)
    requires rid in q.rollouts
    ensures Carries(q, AfterRecord(q, a, c, payload, error, rid))
  {
    RecordedKeepsPlan(q.rollouts[rid], c, error != "");
  }

  lemma RecordShape(q: Queue, a: AgentId, c: CommandId, payload: string, error: string, rid: RolloutId)
    requires QueueInv(q) && rid in q.rollouts
    ensures var r := AfterRecord(q, a, c, payload, error, rid);
      && PendingIsSuffix(r.rollouts[rid].targets) && QueuedHaveCommands(r.rollouts[rid].targets)
      && forall d :: d in r.commands ==> d < r.nextId
  {
    assert RolloutInv(q.rollouts[rid]);
    MarkShape(q.rollouts[rid].targets, c, error != "");
  }

  lemma NextBatchCarries(q: Queue, rid: RolloutId, now: int)
    requires rid in q.rollouts && PendingIsSuffix(q.rollouts[rid].targets)
    requires QueuedHaveCommands(q.rollouts[rid].targets)
    requires forall c :: c in q.commands ==> c < q.nextId
    ensures Carries(q, NextBatch(q, rid, now))
  {
    QueueBatchCarries(q, rid, now);
  }

  /** A report, whoever sends it, changes no order and no plan, and queues only commands of its rollout. */
  lemma CompleteCarries(q: Queue, a: AgentId, c: CommandId, payload: string, error: string, now: int)
    requires QueueInv(q)
    ensures Carries(q, Complete(q, a, c, payload, error, now))
  {
    if RolloutOf(q.rollouts, c).Some? {
      var rid := RolloutOf(q.rollouts, c).value;
      var r := AfterRecord(q, a, c, payload, error, rid);
      RecordShape(q, a, c, payload, error, rid);
      RecordCarries(q, a, c, payload, error, rid);
      NextBatchCarries(r, rid, now);
      CarriesOn(q, r, NextBatch(r, rid, now));
      CompleteInRollout(q, a, c, payload, error, now, rid);
    } else {
      StoreCarries(q, a, c, payload, error);
    }
  }

  // ---------- reports that are not consistent ----------

  /** The target that waits for a command agrees with the command's row. */
  lemma HolderTarget(q: Queue, c: CommandId) returns (rid: RolloutId, k: nat)
    requires Coherent(q) && RolloutOf(q.rollouts, c).Some?
    ensures rid == RolloutOf(q.rollouts, c).value && rid in q.rollouts
    ensures k < |q.rollouts[rid].targets| && q.rollouts[rid].targets[k].command == Some(c)
    ensures c in q.commands && Agree(q.rollouts[rid].targets[k].state, q.commands[c].state)
  {
    rid := RolloutOf(q.rollouts, c).value;
    var ts := q.rollouts[rid].targets;
    k :| 0 <= k < |ts| && ts[k].command == Some(c);
    assert Linked(q, rid) && TargetLinked(q, ts[k]);
  }

  /** The report repeats the outcome that the command has. */
  predicate Repeats(q: Queue, c: CommandId, error: string)
    requires c in q.commands
  {
    Terminal(q.commands[c].state) && (q.commands[c].state == Errored <==> error != "")
  }

  /**
    The tables can take a report, whoever it is from: no rollout waits for the command, or
    it repeats an outcome, or it is from the command's own agent and is the first one or
    turns round an outcome that the rollout can take.
   */
  ghost predicate CanReport(q: Queue, a: AgentId, c: CommandId, error: string) {
    match RolloutOf(q.rollouts, c)
    case None => true
    case Some(rid) =>
      && c in q.commands
      && (|| Repeats(q, c, error)
          || (q.commands[c].agent == a
              && (Terminal(q.commands[c].state) ==> CanFlip(q.rollouts[rid], error != ""))))
  }

  /** A repeated outcome from another agent changes nothing. */
  lemma ForeignRepeat(q: Queue, a: AgentId, c: CommandId, payload: string, error: string, now: int)
    requires QueueInv(q) && RolloutOf(q.rollouts, c).Some?
    requires c in q.commands && q.commands[c].agent != a && Repeats(q, c, error)
    ensures Complete(q, a, c, payload, error, now) == q
  {
    var rid, k := HolderTarget(q, c);
    RepeatedResult(q.rollouts[rid], k, c, error != "");
    assert q.rollouts[rid := q.rollouts[rid]] == q.rollouts;
  }

  /** An outcome turned round by the command's own agent. */
  lemma FlippedCompletion(q: Queue, a: AgentId, c: CommandId, payload: string, error: string, now: int, rid: RolloutId)
    requires QueueInv(q) && OwnCommand(q, a, c) && RolloutOf(q.rollouts, c) == Some(rid)
    requires Terminal(q.commands[c].state) && !Repeats(q, c, error)
    ensures QueueInv(Complete(q, a, c, payload, error, now)) <==> CanFlip(q.rollouts[rid], error != "")
  {
    var rid', k := HolderTarget(q, c);
    var r := AfterRecord(q, a, c, payload, error, rid);
    RecordKeepsCoherent(q, a, c, payload, error, rid, k);
    FlippedResult(q.rollouts[rid], k, c, error != "");
    OthersKeepInv(q, r.rollouts, rid);
    CompleteInRollout(q, a, c, payload, error, now, rid);
    assert NextBatch(r, rid, now) == r;
  }

  /** A batch, if one is due, changes no target that has a result and no row. */
  lemma NextBatchKeepsRow(q: Queue, rid: RolloutId, now: int, k: nat)
    requires rid in q.rollouts && k < |q.rollouts[rid].targets| && q.rollouts[rid].targets[k].state != Pending
    requires forall c :: c in q.commands ==> c < q.nextId
    ensures var r := NextBatch(q, rid, now);
      && rid in r.rollouts && k < |r.rollouts[rid].targets|
      && r.rollouts[rid].targets[k] == q.rollouts[rid].targets[k]
      && forall c :: c in q.commands ==> c in r.commands && r.commands[c] == q.commands[c]
  {
    ActivateKeeps(q.rollouts[rid].targets, q.rollouts[rid].batch, q.nextId, k);
  }

  lemma DisagreementBreaksInv(q: Queue, rid: RolloutId, k: nat, c: CommandId)
    requires rid in q.rollouts && k < |q.rollouts[rid].targets| && q.rollouts[rid].targets[k].command == Some(c)
    requires c in q.commands && !Agree(q.rollouts[rid].targets[k].state, q.commands[c].state)
    ensures !QueueInv(q)
  {
    assert !TargetLinked(q, q.rollouts[rid].targets[k]);
  }

  /** A first or contradicting report from another agent marks the target and leaves the row. */
  lemma ForeignReport(q: Queue, a: AgentId, c: CommandId, payload: string, error: string, now: int)
    requires QueueInv(q) && RolloutOf(q.rollouts, c).Some?
    requires c in q.commands && q.commands[c].agent != a && !Repeats(q, c, error)
    ensures !QueueInv(Complete(q, a, c, payload, error, now))
  {
    var rid, k := HolderTarget(q, c);
    var r := AfterRecord(q, a, c, payload, error, rid);
    var t := NextBatch(r, rid, now);
    CompleteInRollout(q, a, c, payload, error, now, rid);
    NextBatchKeepsRow(r, rid, now, k);
    DisagreementBreaksInv(t, rid, k, c);
  }

  /** A report keeps the invariant of the tables exactly when they can take it. */
  lemma ReportKeepsInvExactly(q: Queue, a: AgentId, c: CommandId, payload: string, error: string, now: int)
    requires QueueInv(q)
    ensures QueueInv(Complete(q, a, c, payload, error, now)) <==> CanReport(q, a, c, error)
  {
    if RolloutOf(q.rollouts, c).None? {
      LoneReport(q, a, c, payload, error);
    } else {
      var rid, k := HolderTarget(q, c);
      if q.commands[c].agent != a {
        if Repeats(q, c, error) {
          ForeignRepeat(q, a, c, payload, error, now);
        } else {
          ForeignReport(q, a, c, payload, error, now);
        }
      } else if Terminal(q.commands[c].state) && !Repeats(q, c, error) {
        FlippedCompletion(q, a, c, payload, error, now, rid);
      } else {
        CompleteKeepsInv(q, a, c, payload, error, now);
      }
    }
  }

  /** One agent in a rollout, and another one that reports for it. */
  lemma ForeignResultBreaksTables(payload: string, error: string, now: int) returns (q: Queue)
    ensures QueueInv(q) && 1 in q.commands && q.commands[1].agent == "a"
    ensures !QueueInv(Complete(q, "b", 1, payload, error, now))
  {
    var none := Queue(map[], map[], 0);
    q := StartRollout(none, ["a"], "Reload", "", 1, 0, now);
    StartRolloutKeepsInv(none, ["a"], "Reload", "", 1, 0, now);
    var ts := NewTargets(["a"]);
    assert ts == [Target("a", Pending, None)];
    assert PendingAgents(ts, 1) == ["a"];
    assert Activate(ts, 1, 1) == [Target("a", Active, Some(1))];
    assert q.rollouts[0].targets[0].command == Some(1);
    OnlyHolder(q, 1, 0, 0);
    ReportKeepsInvExactly(q, "b", 1, payload, error, now);
  }
}

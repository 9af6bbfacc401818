/**
  The repository object over the fleet tables.  A method call is one atomic step at the
  instant `now`; UUIDs are drawn from `nextId`, raw tokens and credentials are parameters.
 */
module FleetRepo {
  import opened Basics
  import opened Rollouts
  import opened CommandQueue
  import AgentRegistry
  import Certificates

  /** Known agents, each once, in the order of a listing by display name and hostname. */
  ghost predicate Listed(ids: seq<AgentId>, agents: map<AgentId, AgentRegistry.AgentRow>) {
    && (forall i :: 0 <= i < |ids| ==> ids[i] in agents)
    && (forall i, j :: 0 <= i < j < |ids| ==> ids[i] != ids[j])
    && (forall i, j :: 0 <= i < j < |ids| ==> agents[ids[i]].profile.place <= agents[ids[j]].profile.place)
  }

  /** The agents that a rollout of a group targets: its members, each once and as listed. */
  ghost predicate IsMembers(targets: seq<AgentId>, agents: map<AgentId, AgentRegistry.AgentRow>, group: string) {
    && Listed(targets, agents)
    && (forall i :: 0 <= i < |targets| ==> group in agents[targets[i]].profile.groups)
    && (forall a :: a in agents && group in agents[a].profile.groups ==> a in targets)
  }

  class FleetRepo {
    var tokens: map<Digest, AgentRegistry.Token>
    var agents: map<AgentId, AgentRegistry.AgentRow>
    var commands: map<CommandId, Command>
    var rollouts: map<RolloutId, Rollout>
    var nextId: nat

    ghost function Registry(): AgentRegistry.Registry reads this { AgentRegistry.Registry(tokens, agents) }

    ghost function Tables(): Queue reads this { Queue(commands, rollouts, nextId) }

    ghost predicate Valid() reads this { QueueInv(Tables()) }

    constructor ()
      ensures Valid()
      ensures Tables() == Queue(map[], map[], 0) && Registry() == AgentRegistry.Registry(map[], map[])
    {
      tokens, agents, commands, rollouts, nextId := map[], map[], map[], map[], 0;
    }

    // ---------- enrollment and authentication ----------

    method CreateEnrollmentToken(raw: string, agent: AgentId, expires: int) returns (ok: bool)
      modifies this`tokens
      ensures ok == AgentRegistry.CreateToken(old(Registry()), raw, agent, expires).Some?
      ensures Registry() ==
        if ok then AgentRegistry.CreateToken(old(Registry()), raw, agent, expires).value else old(Registry())
    {
      ok := Sha256(raw) !in tokens;
      if ok {
        tokens := tokens[Sha256(raw) := AgentRegistry.Token(agent, expires, None)];
      }
    }

    method Enroll(raw: string, agent: AgentId, profile: AgentRegistry.Profile, credential: string, now: int)
      returns (ok: bool)
      modifies this`tokens, this`agents
      ensures ok == AgentRegistry.Enroll(old(Registry()), raw, agent, profile, credential, now).Some?
      ensures Registry() ==
        if ok then AgentRegistry.Enroll(old(Registry()), raw, agent, profile, credential, now).value
        else old(Registry())
    {
      var hash := Sha256(raw);
      if hash !in tokens || tokens[hash].usedBy.Some? || tokens[hash].expires < now {
        return false;
      }
      var wanted := tokens[hash].agent;
      if wanted != "" && wanted != agent {
        return false;
      }
      var credentialHash := Sha256(credential);
      if agent in agents {
        agents := agents[agent := agents[agent].(
          profile := profile, connection := AgentRegistry.Online, credential := Some(credentialHash),
          sequence := 0, stateHash := "")];
      } else {
        agents := agents[agent := AgentRegistry.AgentRow(
          profile, AgentRegistry.Online, Some(credentialHash), [], 0, "", 0)];
      }
      tokens := tokens[hash := tokens[hash].(usedBy := Some(agent))];
      ok := true;
    }

    method Authenticate(agent: AgentId, credential: string) returns (ok: bool)
      ensures ok == AgentRegistry.Authenticates(Registry(), agent, credential)
    {
      if agent !in agents || agents[agent].credential.None? {
        return false;
      }
      ok := agents[agent].credential.value == Sha256(credential);
    }

    method RevokeAgent(agent: AgentId) returns (ok: bool)
      modifies this`agents
      ensures ok == AgentRegistry.Revoke(old(Registry()), agent).Some?
      ensures Registry() == if ok then AgentRegistry.Revoke(old(Registry()), agent).value else old(Registry())
    {
      ok := agent in agents;
      if ok {
        agents := agents[agent := agents[agent].(
          connection := AgentRegistry.Revoked, credential := None, fingerprints := [])];
      }
    }

    method UpdateState(agent: AgentId, s: AgentRegistry.StateReport) returns (ok: bool, drift: bool)
      modifies this`agents
      ensures ok == AgentRegistry.Fresh(old(Registry()), agent, s)
      ensures Registry() == if ok then AgentRegistry.UpdateState(old(Registry()), agent, s) else old(Registry())
      ensures drift == (ok && AgentRegistry.Drifted(old(Registry()), agent, s))
    {
      if agent !in agents || agents[agent].sequence > s.sequence {
        return false, false;
      }
      var previous := agents[agent];
      agents := agents[agent := previous.(
        connection := AgentRegistry.Online, sequence := s.sequence, stateHash := s.stateHash, revision := s.revision)];
      ok := true;
      drift := previous.stateHash != "" && previous.stateHash != s.stateHash && previous.revision == s.revision;
    }

    // ---------- certificates ----------

    /** Replaces the list by one fingerprint; an unknown agent is no error. */
    method SetAgentCertificate(agent: AgentId, fingerprint: string)
      modifies this`agents
      ensures agents == if agent in old(agents)
        then old(agents)[agent := old(agents)[agent].(fingerprints := [fingerprint])] else old(agents)
    {
      if agent in agents {
        agents := agents[agent := agents[agent].(fingerprints := [fingerprint])];
      }
    }

    method RotateAgentCertificate(agent: AgentId, fingerprint: string) returns (ok: bool)
      modifies this`agents
      ensures ok == (agent in old(agents))
      ensures ok ==> agents == old(agents)[agent := old(agents)[agent].(
        fingerprints := Certificates.Rotated(old(agents)[agent].fingerprints, fingerprint))]
      ensures !ok ==> agents == old(agents)
    {
      if agent !in agents {
        return false;
      }
      var combined := [fingerprint];
      var parts := agents[agent].fingerprints;
      if parts != [] {
        combined := [parts[|parts| - 1]] + combined;
      }
      assert combined == Certificates.Rotated(parts, fingerprint);
      agents := agents[agent := agents[agent].(fingerprints := combined)];
      ok := true;
    }

    /** Lets a listed fingerprint in, and retires the others once the newest is used. */
    method CertificateMatches(agent: AgentId, fingerprint: string) returns (ok: bool)
      modifies this`agents
      ensures ok <==> agent in old(agents) && old(agents)[agent].connection != AgentRegistry.Revoked
                      && fingerprint in old(agents)[agent].fingerprints
      ensures ok ==> agents == old(agents)[agent := old(agents)[agent].(
        fingerprints := Certificates.Retired(old(agents)[agent].fingerprints, fingerprint))]
      ensures !ok ==> agents == old(agents)
    {
      if agent !in agents || agents[agent].connection == AgentRegistry.Revoked {
        return false;
      }
      var parts := agents[agent].fingerprints;
      var i := 0;
      while i < |parts|
        invariant 0 <= i <= |parts|
        invariant fingerprint !in parts[..i]
        invariant agents == old(agents)
      {
        if parts[i] == fingerprint {
          FindIs(parts, fingerprint, i);
          if |parts| > 1 && i == |parts| - 1 {
            agents := agents[agent := agents[agent].(fingerprints := [fingerprint])];
          }
          assert agents[agent] == old(agents)[agent].(fingerprints := Certificates.Retired(parts, fingerprint));
          assert agents == old(agents)[agent := agents[agent]];
          return true;
        }
        i := i + 1;
      }
      ok := false;
    }

    // ---------- commands ----------

    method QueueCommand(agent: AgentId, op: string, params: string, now: int) returns (id: CommandId)
      modifies this`commands, this`nextId
      ensures id == old(nextId) && Tables() == Enqueue(old(Tables()), agent, op, params, now)
      ensures old(Valid()) ==> Valid()
    {
      id := nextId;
      commands := commands[id := NewCommand(agent, op, params, now)];
      nextId := nextId + 1;
      if old(Valid()) {
        EnqueueKeepsInv(old(Tables()), agent, op, params, now);
      }
    }

    method NextCommand(agent: AgentId, now: int) returns (c: Option<CommandId>)
      requires Valid()
      modifies this`commands
      ensures MayDeliver(old(Tables()), agent, now, c)
      ensures Tables() == Deliver(old(Tables()), agent, now, c)
      ensures Valid()
    {
      var requeued := Requeue(commands, agent, now - REDELIVERY);
      c := Oldest(requeued, agent);
      ghost var before := Tables();
      if c.Some? {
        commands := requeued[c.value := requeued[c.value].(state := Delivered, delivered := Some(now))];
      }
      DeliverKeepsInv(before, agent, now, c);
    }

    /** An oldest queued command of the agent, if it has any. */
    static method Oldest(cs: map<CommandId, Command>, agent: AgentId) returns (c: Option<CommandId>)
      ensures match c
        case Some(id) => IsNext(cs, agent, id)
        case None => NothingQueued(cs, agent)
    {
      c := None;
      var rest := cs.Keys;
      while rest != {}
        invariant rest <= cs.Keys
        invariant c.None? ==> forall d :: d in cs && d !in rest && cs[d].agent == agent ==> cs[d].state != Queued
        invariant c.Some? ==> c.value in cs && cs[c.value].agent == agent && cs[c.value].state == Queued
        invariant c.Some? ==> forall d :: d in cs && d !in rest && cs[d].agent == agent && cs[d].state == Queued ==>
          cs[c.value].created <= cs[d].created
        decreases rest
      {
        var d :| d in rest;
        rest := rest - {d};
        if cs[d].agent == agent && cs[d].state == Queued && (c.None? || cs[d].created < cs[c.value].created) {
          c := Some(d);
        }
      }
    }

    /** Stores a result and advances the rollout that waits for it. */
    method CompleteCommand(agent: AgentId, c: CommandId, payload: string, error: string, now: int)
      requires Valid()
      modifies this`commands, this`rollouts, this`nextId
      ensures Tables() == Complete(old(Tables()), agent, c, payload, error, now)
      ensures Valid() <==> CanReport(old(Tables()), agent, c, error)
    {
      ghost var before := Tables();
      if c in commands && commands[c].agent == agent {
        commands := commands[c := FinishedRow(commands[c], payload, error)];
      }
      if RolloutOf(rollouts, c).Some? {
        HolderIsUnique(before, c);
        assert RolloutInv(rollouts[RolloutOf(rollouts, c).value]);
      }
      AdvanceRollout(c, error != "", now);
      ReportKeepsInvExactly(before, agent, c, payload, error, now);
    }

    method AdvanceRollout(c: CommandId, failed: bool, now: int)
      requires forall r :: r in rollouts && HasCommand(rollouts[r].targets, c) ==>
        && RolloutOf(rollouts, c) == Some(r)
        && DistinctAgents(rollouts[r].targets) && PendingIsSuffix(rollouts[r].targets)
        && QueuedHaveCommands(rollouts[r].targets)
      modifies this`commands, this`rollouts, this`nextId
      ensures Tables() == match RolloutOf(old(rollouts), c)
        case None => old(Tables())
        case Some(r) => AdvanceIn(old(Tables()), r, c, failed, now)
    {
      if rid :| rid in rollouts && HasCommand(rollouts[rid].targets, c) {
        var ro := rollouts[rid];
        var targets := Mark(ro.targets, c, if failed then Broken else Done);
        MarkShape(ro.targets, c, failed);
        var active, pending := Count(targets, Active), Count(targets, Pending);
        var complete, fail := Count(targets, Done), Count(targets, Broken);
        if fail > ro.maxFailures {
          rollouts := rollouts[rid := ro.(targets := targets, state := Failed, completed := complete, failed := fail)];
          return;
        }
        if active == 0 && pending == 0 {
          rollouts := rollouts[rid :=
            ro.(targets := targets, state := Completed, completed := complete, failed := fail)];
          return;
        }
        rollouts := rollouts[rid := ro.(targets := targets, completed := complete, failed := fail)];
        if active == 0 {
          QueueRolloutBatch(rid, now);
        }
      }
    }

    method QueueRolloutBatch(rid: RolloutId, now: int)
      requires rid in rollouts
      requires DistinctAgents(rollouts[rid].targets) && PendingIsSuffix(rollouts[rid].targets)
      modifies this`commands, this`rollouts, this`nextId
      ensures Tables() == QueueBatch(old(Tables()), rid, now)
    {
      var ro := rollouts[rid];
      if ro.state != Running {
        return;
      }
      var ids := PendingAgents(ro.targets, ro.batch);
      ghost var q := Tables();
      BatchStarts(q, rid, ids, now);
      var j := 0;
      while j < |ids|
        invariant 0 <= j <= |ids|
        invariant Served(q, rid, ids, j, now)
      {
        ServeAgent(q, rid, ids, j, now);
        j := j + 1;
      }
      BatchEnds(q, rid, ids, now);
    }

    /** The tables of q once the first j of these agents have their command of the rollout. */
    ghost predicate Served(q: Queue, rid: RolloutId, ids: seq<AgentId>, j: nat, now: int)
      requires rid in q.rollouts && j <= |ids|
      reads this
    {
      var ro := q.rollouts[rid];
      && nextId == q.nextId + j
      && commands == q.commands + BatchCommands(ids[..j], ro.op, ro.params, now, q.nextId)
      && rollouts == WithTargets(q.rollouts, rid, Activate(ro.targets, j, q.nextId))
    }

    /** One pass of the loop of queueRolloutBatch. */
    method ServeAgent(ghost q: Queue, rid: RolloutId, ids: seq<AgentId>, j: nat, now: int)
      requires rid in q.rollouts && j < |ids| && ids == PendingAgents(q.rollouts[rid].targets, q.rollouts[rid].batch)
      requires DistinctAgents(q.rollouts[rid].targets) && PendingIsSuffix(q.rollouts[rid].targets)
      requires Served(q, rid, ids, j, now)
      modifies this`commands, this`rollouts, this`nextId
      ensures Served(q, rid, ids, j + 1, now)
    {
      var ro := rollouts[rid];
      ServedCommands(q.commands, ids, j, ro.op, ro.params, now, q.nextId);
      ServedTargets(q.rollouts, rid, ro.batch, j, q.nextId);
      var id := QueueCommand(ids[j], ro.op, ro.params, now);
      rollouts := WithTargets(rollouts, rid, Assign(rollouts[rid].targets, ids[j], id));
    }

    // ---------- rollouts ----------

    /** An agent of the rest that no other one of the rest comes before in a listing. */
    method First(rest: set<AgentId>) returns (first: AgentId)
      requires rest != {} && rest <= agents.Keys
      ensures first in rest
      ensures forall a :: a in rest ==> agents[first].profile.place <= agents[a].profile.place
    {
      first :| first in rest;
      var left := rest - {first};
      while left != {}
        invariant left <= rest && first in rest
        invariant forall a :: a in rest && a !in left ==> agents[first].profile.place <= agents[a].profile.place
        decreases left
      {
        var a :| a in left;
        left := left - {a};
        if agents[a].profile.place < agents[first].profile.place {
          first := a;
        }
      }
    }

    /** All agents; where display name and hostname leave the order open, so does the listing. */
    method ListAgents() returns (ids: seq<AgentId>)
      ensures Listed(ids, agents)
      ensures forall a :: a in ids <==> a in agents
    {
      ids := [];
      var rest := agents.Keys;
      while rest != {}
        invariant rest <= agents.Keys && Listed(ids, agents)
        invariant forall a :: a in agents <==> a in rest || a in ids
        invariant forall a, b :: a in ids && b in rest ==>
          a != b && agents[a].profile.place <= agents[b].profile.place
        decreases rest
      {
        var a := First(rest);
        rest := rest - {a};
        ids := ids + [a];
      }
    }

    /** The agents of a group, in the order of the listing. */
    method Members(group: string) returns (targets: seq<AgentId>)
      ensures IsMembers(targets, agents, group)
    {
      var listing := ListAgents();
      targets := [];
      var i := 0;
      while i < |listing|
        invariant 0 <= i <= |listing|
        invariant Listed(targets, agents)
        invariant forall a :: a in targets <==> a in listing[..i] && group in agents[a].profile.groups
      {
        var a := listing[i];
        var groups := agents[a].profile.groups;
        var g := 0;
        while g < |groups| && groups[g] != group
          invariant 0 <= g <= |groups|
          invariant group !in groups[..g]
        {
          g := g + 1;
        }
        if g < |groups| {
          targets := targets + [a];
        }
        i := i + 1;
      }
    }

    /** The PENDING rows of a new rollout, one per agent. */
    static method TargetRows(targets: seq<AgentId>) returns (rows: seq<Target>)
      ensures rows == NewTargets(targets)
    {
      rows := [];
      var i := 0;
      while i < |targets|
        invariant 0 <= i <= |targets|
        invariant rows == NewTargets(targets[..i])
      {
        rows := rows + [Target(targets[i], Pending, None)];
        i := i + 1;
      }
      assert targets[..i] == targets;
    }

    /** Starts a rollout on every member of a group; a group without members is an error. */
    method CreateRollout(group: string, op: string, params: string, batchSize: int, maxFailures: int, now: int)
      returns (id: Option<RolloutId>)
      requires Valid()
      modifies this`commands, this`rollouts, this`nextId
      ensures id.None? <==> forall a :: a in agents ==> group !in agents[a].profile.groups
      ensures id.None? ==> Tables() == old(Tables())
      ensures id.Some? ==> id.value == old(nextId) && exists targets: seq<AgentId> ::
        IsMembers(targets, agents, group) && targets != []
        && Tables() == StartRollout(old(Tables()), targets, op, params, batchSize, maxFailures, now)
      ensures Valid()
    {
      var targets := Members(group);
      if targets == [] {
        assert forall a :: a in agents && group in agents[a].profile.groups ==> a in targets;
        return None;
      }
      assert targets[0] in agents && group in agents[targets[0]].profile.groups;
      var rid := StartOn(targets, op, params, batchSize, maxFailures, now);
      assert IsMembers(targets, agents, group);
      id := Some(rid);
    }

    /** Inserts the rollout and its PENDING rows, and queues the first batch. */
    method StartOn(targets: seq<AgentId>, op: string, params: string, batchSize: int, maxFailures: int, now: int)
      returns (rid: RolloutId)
      requires Valid() && targets != []
      requires forall i, j :: 0 <= i < j < |targets| ==> targets[i] != targets[j]
      modifies this`commands, this`rollouts, this`nextId
      ensures rid == old(nextId)
      ensures Tables() == StartRollout(old(Tables()), targets, op, params, batchSize, maxFailures, now)
      ensures Valid()
    {
      var batch := if batchSize < 1 then 1 else batchSize;
      batch := if batch > |targets| then |targets| else batch;
      var budget := if maxFailures < 0 then 0 else maxFailures;
      rid := nextId;
      nextId := nextId + 1;
      var rows := TargetRows(targets);
      rollouts := rollouts[rid := Rollout(op, params, batch, budget, Running, |targets|, 0, 0, rows)];
      NewRolloutReady(targets, op, params, batchSize, maxFailures);
      QueueRolloutBatch(rid, now);
      StartRolloutKeepsInv(old(Tables()), targets, op, params, batchSize, maxFailures, now);
    }
  }

  lemma FindIs(parts: seq<string>, f: string, i: nat)
    requires i < |parts| && parts[i] == f && f !in parts[..i]
    ensures Certificates.Find(parts, f) == i
  {
  }

  lemma HolderIsUnique(q: Queue, c: CommandId)
    requires Coherent(q)
    ensures forall r :: r in q.rollouts && HasCommand(q.rollouts[r].targets, c) ==> RolloutOf(q.rollouts, c) == Some(r)
  {
  }

  /** The rollouts with other targets in one of them. */
  function WithTargets(rs: map<RolloutId, Rollout>, rid: RolloutId, ts: seq<Target>): map<RolloutId, Rollout>
    requires rid in rs
  {
    rs[rid := rs[rid].(targets := ts)]
  }

  lemma BatchStarts(q: Queue, rid: RolloutId, ids: seq<AgentId>, now: int)
    requires rid in q.rollouts
    ensures var ro := q.rollouts[rid];
      && WithTargets(q.rollouts, rid, Activate(ro.targets, 0, q.nextId)) == q.rollouts
      && q.commands + BatchCommands(ids[..0], ro.op, ro.params, now, q.nextId) == q.commands
  {
    assert q.rollouts[rid := q.rollouts[rid]] == q.rollouts;
  }

  lemma BatchEnds(q: Queue, rid: RolloutId, ids: seq<AgentId>, now: int)
    requires rid in q.rollouts && q.rollouts[rid].state == Running
    requires PendingIsSuffix(q.rollouts[rid].targets)
    requires ids == PendingAgents(q.rollouts[rid].targets, q.rollouts[rid].batch)
    ensures var ro := q.rollouts[rid];
      && q.commands + BatchCommands(ids[..|ids|], ro.op, ro.params, now, q.nextId)
        == QueueBatch(q, rid, now).commands
      && WithTargets(q.rollouts, rid, Activate(ro.targets, |ids|, q.nextId)) == QueueBatch(q, rid, now).rollouts
      && q.nextId + |ids| == QueueBatch(q, rid, now).nextId
  {
    ActivateAll(q.rollouts[rid].targets, q.rollouts[rid].batch, q.nextId);
    assert ids[..|ids|] == ids;
  }

  lemma MergeUpdate(m: map<CommandId, Command>, n: map<CommandId, Command>, id: CommandId, c: Command)
    ensures m + n[id := c] == (m + n)[id := c]
  {
  }

  /** The command of agent j is the next one of the batch. */
  lemma BatchCommandsStep(ids: seq<AgentId>, j: nat, op: string, params: string, now: int, id: CommandId)
    requires j < |ids|
    ensures BatchCommands(ids[..j + 1], op, params, now, id)
      == BatchCommands(ids[..j], op, params, now, id)[id + j := NewCommand(ids[j], op, params, now)]
  {
    assert ids[..j + 1][..j] == ids[..j];
  }

  /** The commands of the first j agents and the one of the next are those of the first j + 1. */
  lemma ServedCommands(m: map<CommandId, Command>, ids: seq<AgentId>, j: nat,
                       op: string, params: string, now: int, id: CommandId)
    requires j < |ids|
    ensures (m + BatchCommands(ids[..j], op, params, now, id))[id + j := NewCommand(ids[j], op, params, now)]
      == m + BatchCommands(ids[..j + 1], op, params, now, id)
  {
    BatchCommandsStep(ids, j, op, params, now, id);
    MergeUpdate(m, BatchCommands(ids[..j], op, params, now, id), id + j, NewCommand(ids[j], op, params, now));
  }

  /** Assigning the next command to the agent's row activates the next target. */
  lemma ServedTargets(rs: map<RolloutId, Rollout>, rid: RolloutId, n: nat, j: nat, id: CommandId)
    requires rid in rs && j < |PendingAgents(rs[rid].targets, n)|
    requires DistinctAgents(rs[rid].targets) && PendingIsSuffix(rs[rid].targets)
    ensures
      var ts := rs[rid].targets;
      var us := WithTargets(rs, rid, Activate(ts, j, id));
      WithTargets(us, rid, Assign(us[rid].targets, PendingAgents(ts, n)[j], id + j))
        == WithTargets(rs, rid, Activate(ts, j + 1, id))
  {
    ActivateStep(rs[rid].targets, n, j, id);
    OverwriteTargets(rs, rid, Activate(rs[rid].targets, j, id), Activate(rs[rid].targets, j + 1, id));
  }

  lemma OverwriteTargets(rs: map<RolloutId, Rollout>, rid: RolloutId, xs: seq<Target>, ys: seq<Target>)
    requires rid in rs
    ensures var us := rs[rid := rs[rid].(targets := xs)];
      us[rid := us[rid].(targets := ys)] == rs[rid := rs[rid].(targets := ys)]
  {
  }

  /** Activating as many targets as there are PENDING ones within the limit is the whole batch. */
  lemma ActivateAll(ts: seq<Target>, n: nat, id: CommandId)
    requires PendingIsSuffix(ts)
    ensures Activate(ts, |PendingAgents(ts, n)|, id) == Activate(ts, n, id)
  {
    PendingAgentsAt(ts, n);
    var m := |PendingAgents(ts, n)|;
    ActivateIsBatch(ts, n, id);
    ActivateIsBatch(ts, m, id);
    assert FirstPending(ts) + Count(ts, Pending) == |ts|;
  }
}

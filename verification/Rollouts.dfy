/**
  One staged rollout: its targets in ordinal order, their states, and what recording a
  result and queueing a batch do to them.  The table fleet_rollout_targets of one rollout
  is the sequence `targets`; the ordinal of a target is its index.
 */
module Rollouts {
  import opened Basics

  type AgentId = string
  type CommandId = nat
  type RolloutId = nat

  /** Done and Broken are a target's COMPLETED and FAILED. */
  datatype TargetState = Pending | Active | Done | Broken
  datatype Target = Target(agent: AgentId, state: TargetState, command: Option<CommandId>)
  datatype RolloutState = Running | Completed | Failed

  datatype Rollout = Rollout(
    op: string,
    params: string,
    batch: nat,
    maxFailures: nat,
    state: RolloutState,
    total: nat,
    completed: nat,
    failed: nat,
    targets: seq<Target>)

  /** The number of targets in a state. */
  function Count(ts: seq<Target>, s: TargetState): (n: nat)
    ensures n <= |ts|
  {
    if ts == [] then 0 else (if ts[0].state == s then 1 else 0) + Count(ts[1..], s)
  }

  /** Two rows of one rollout never name the same agent (the table's primary key). */
  ghost predicate DistinctAgents(ts: seq<Target>) {
    forall i, j :: 0 <= i < j < |ts| ==> ts[i].agent != ts[j].agent
  }

  /** Targets leave the PENDING state in ordinal order. */
  ghost predicate PendingIsSuffix(ts: seq<Target>) {
    forall i, j :: 0 <= i < j < |ts| && ts[i].state == Pending ==> ts[j].state == Pending
  }

  /** Exactly the targets that were queued carry a command. */
  ghost predicate QueuedHaveCommands(ts: seq<Target>) {
    forall i :: 0 <= i < |ts| ==> (ts[i].command.Some? <==> ts[i].state != Pending)
  }

  predicate HasCommand(ts: seq<Target>, c: CommandId) {
    exists i :: 0 <= i < |ts| && ts[i].command == Some(c)
  }

  /** The rows that wait for the command get the state. */
  function Mark(ts: seq<Target>, c: CommandId, s: TargetState): (r: seq<Target>)
    ensures |r| == |ts|
    ensures forall i :: 0 <= i < |ts| ==>
      r[i] == if ts[i].command == Some(c) then ts[i].(state := s) else ts[i]
  {
    seq(|ts|, i requires 0 <= i < |ts| =>
      if ts[i].command == Some(c) then ts[i].(state := s) else ts[i])
  }

  /** The rows of the agent become ACTIVE and wait for the command. */
  function Assign(ts: seq<Target>, a: AgentId, c: CommandId): (r: seq<Target>)
    ensures |r| == |ts|
    ensures forall i :: 0 <= i < |ts| ==>
      r[i] == if ts[i].agent == a then ts[i].(state := Active, command := Some(c)) else ts[i]
  {
    seq(|ts|, i requires 0 <= i < |ts| =>
      if ts[i].agent == a then ts[i].(state := Active, command := Some(c)) else ts[i])
  }

  /** The agents of the first n PENDING targets in ordinal order. */
  function PendingAgents(ts: seq<Target>, n: nat): (r: seq<AgentId>)
    ensures |r| <= n
  {
    if ts == [] || n == 0 then []
    else if ts[0].state == Pending then [ts[0].agent] + PendingAgents(ts[1..], n - 1)
    else PendingAgents(ts[1..], n)
  }

  /** The first n PENDING targets become ACTIVE with the command ids id, id + 1, ... */
  function Activate(ts: seq<Target>, n: nat, id: CommandId): (r: seq<Target>)
    ensures |r| == |ts|
  {
    if ts == [] || n == 0 then ts
    else if ts[0].state == Pending then
      [ts[0].(state := Active, command := Some(id))] + Activate(ts[1..], n - 1, id + 1)
    else [ts[0]] + Activate(ts[1..], n, id)
  }

  /** The state and counters that advanceRollout stores once a target row is marked. */
  function Settle(ro: Rollout): Rollout {
    var complete, fail := Count(ro.targets, Done), Count(ro.targets, Broken);
    var counted := ro.(completed := complete, failed := fail);
    if fail > ro.maxFailures then counted.(state := Failed)
    else if Count(ro.targets, Active) == 0 && Count(ro.targets, Pending) == 0 then
      counted.(state := Completed)
    else counted
  }

  /** advanceRollout asks for a next batch after settling. */
  predicate WantsBatch(ro: Rollout) {
    && Count(ro.targets, Broken) <= ro.maxFailures
    && Count(ro.targets, Active) == 0
    && Count(ro.targets, Pending) != 0
  }

  /** The state of a rollout is determined by its target counts. */
  ghost predicate StateMatchesCounts(ro: Rollout) {
    && (ro.state == Failed <==> Count(ro.targets, Broken) > ro.maxFailures)
    && (ro.state == Completed <==>
        Count(ro.targets, Active) == 0 && Count(ro.targets, Pending) == 0
        && Count(ro.targets, Broken) <= ro.maxFailures)
    && (ro.state == Running ==> Count(ro.targets, Active) > 0)
  }

  /** What holds of a rollout in every reachable state. */
  ghost predicate RolloutInv(ro: Rollout) {
    && 1 <= ro.batch <= |ro.targets|
    && ro.total == |ro.targets|
    && DistinctAgents(ro.targets)
    && PendingIsSuffix(ro.targets)
    && QueuedHaveCommands(ro.targets)
    && ro.completed == Count(ro.targets, Done)
    && ro.failed == Count(ro.targets, Broken)
    && Count(ro.targets, Active) <= ro.batch
    && Count(ro.targets, Broken) + Count(ro.targets, Active) <= ro.maxFailures + ro.batch
    && StateMatchesCounts(ro)
  }

  /** What is left to do: every PENDING target has two transitions to go, an ACTIVE one has one. */
  ghost function Remaining(ro: Rollout): nat {
    2 * Count(ro.targets, Pending) + Count(ro.targets, Active)
  }

  // ---------- counting ----------

  /** Conservation: the four counts sum to the number of targets. */
  lemma {:induction false} CountsSum(ts: seq<Target>)
    ensures Count(ts, Pending) + Count(ts, Active) + Count(ts, Done) + Count(ts, Broken) == |ts|
  {
    if ts != [] { CountsSum(ts[1..]); }
  }

  lemma {:induction false} CountUpdate(ts: seq<Target>, k: nat, t: Target, s: TargetState)
    requires k < |ts|
    ensures Count(ts[k := t], s)
      == Count(ts, s) - (if ts[k].state == s then 1 else 0) + (if t.state == s then 1 else 0)
  {
    if k == 0 {
      assert ts[k := t][1..] == ts[1..];
    } else {
      assert ts[k := t][1..] == ts[1..][k - 1 := t];
      CountUpdate(ts[1..], k - 1, t, s);
    }
  }

  lemma {:induction false} CountPositive(ts: seq<Target>, k: nat)
    requires k < |ts|
    ensures Count(ts, ts[k].state) > 0
  {
    if k > 0 { CountPositive(ts[1..], k - 1); }
  }

  lemma {:induction false} CountWitness(ts: seq<Target>, s: TargetState)
    returns (k: nat)
    requires Count(ts, s) > 0
    ensures k < |ts| && ts[k].state == s
  {
    if ts[0].state == s {
      k := 0;
    } else {
      k := CountWitness(ts[1..], s);
      k := k + 1;
    }
  }

  lemma {:induction false} AllPending(ts: seq<Target>)
    requires forall i :: 0 <= i < |ts| ==> ts[i].state == Pending
    ensures Count(ts, Pending) == |ts|
    ensures Count(ts, Active) == Count(ts, Done) == Count(ts, Broken) == 0
  {
    if ts != [] { AllPending(ts[1..]); }
  }

  // ---------- queueing a batch ----------

  function Min(a: nat, b: nat): nat { if a <= b then a else b }

  /** A batch moves min(n, pending) targets from PENDING to ACTIVE and touches no result. */
  lemma {:induction false} ActivateCounts(ts: seq<Target>, n: nat, id: CommandId)
    ensures Count(Activate(ts, n, id), Active) == Count(ts, Active) + Min(n, Count(ts, Pending))
    ensures Count(Activate(ts, n, id), Pending) == Count(ts, Pending) - Min(n, Count(ts, Pending))
    ensures Count(Activate(ts, n, id), Done) == Count(ts, Done)
    ensures Count(Activate(ts, n, id), Broken) == Count(ts, Broken)
    ensures |PendingAgents(ts, n)| == Min(n, Count(ts, Pending))
    decreases |ts|
  {
    if ts != [] && n > 0 {
      var rest := Activate(ts, n, id)[1..];
      if ts[0].state == Pending {
        assert rest == Activate(ts[1..], n - 1, id + 1);
        ActivateCounts(ts[1..], n - 1, id + 1);
      } else {
        assert rest == Activate(ts[1..], n, id);
        ActivateCounts(ts[1..], n, id);
      }
    }
  }

  /** The index of the first PENDING target. */
  function FirstPending(ts: seq<Target>): nat { |ts| - Count(ts, Pending) }

  lemma {:induction false} FirstPendingSplits(ts: seq<Target>)
    requires PendingIsSuffix(ts)
    ensures forall i :: 0 <= i < |ts| ==> (ts[i].state == Pending <==> FirstPending(ts) <= i)
  {
    if ts != [] {
      FirstPendingSplits(ts[1..]);
      if ts[0].state == Pending && |ts| > 1 {
        assert ts[1..][0].state == Pending;
      }
      assert forall i :: 0 < i < |ts| ==> ts[i] == ts[1..][i - 1];
    }
  }

  /** The row at index i after the n targets from index k on were given commands. */
  function BatchRow(t: Target, i: int, k: int, n: int, id: CommandId): Target {
    if k <= i < k + n then t.(state := Active, command := Some(id + (i - k))) else t
  }

  ghost predicate BatchAt(ts: seq<Target>, r: seq<Target>, k: int, n: int, id: CommandId) {
    && |r| == |ts|
    && forall i :: 0 <= i < |ts| ==> r[i] == BatchRow(ts[i], i, k, n, id)
  }

  lemma BatchAtCons(ts: seq<Target>, r: seq<Target>, k: int, n: nat, id: CommandId)
    requires |ts| == |r| > 0
    requires r[0] == BatchRow(ts[0], 0, k, n, id)
    requires if k == 0 && n > 0 then BatchAt(ts[1..], r[1..], 0, n - 1, id + 1)
             else BatchAt(ts[1..], r[1..], k - 1, n, id)
    ensures BatchAt(ts, r, k, n, id)
  {
  }

  lemma {:induction false} ActivateIsBatch(ts: seq<Target>, n: nat, id: CommandId)
    requires PendingIsSuffix(ts)
    ensures BatchAt(ts, Activate(ts, n, id), FirstPending(ts), n, id)
    decreases |ts|
  {
    if ts != [] && n > 0 {
      FirstPendingSplits(ts);
      if ts[0].state == Pending {
        ActivateIsBatch(ts[1..], n - 1, id + 1);
        FirstPendingIsZero(ts);
        BatchAtCons(ts, Activate(ts, n, id), 0, n, id);
      } else {
        ActivateIsBatch(ts[1..], n, id);
        BatchAtCons(ts, Activate(ts, n, id), FirstPending(ts), n, id);
      }
    }
  }

  /** When the first target is PENDING they all are, and so are those after it. */
  lemma FirstPendingIsZero(ts: seq<Target>)
    requires PendingIsSuffix(ts) && ts != [] && ts[0].state == Pending
    ensures FirstPending(ts) == 0
    ensures |ts| > 1 ==> FirstPending(ts[1..]) == 0
    ensures |ts| == 1 ==> ts[1..] == []
  {
    FirstPendingSplits(ts);
    FirstPendingSplits(ts[1..]);
  }

  lemma {:induction false} PendingAgentsAt(ts: seq<Target>, n: nat)
    requires PendingIsSuffix(ts)
    ensures |PendingAgents(ts, n)| == Min(n, Count(ts, Pending))
    ensures forall j :: 0 <= j < |PendingAgents(ts, n)| ==>
      PendingAgents(ts, n)[j] == ts[FirstPending(ts) + j].agent
    decreases |ts|
  {
    if ts != [] && n > 0 {
      FirstPendingSplits(ts);
      if ts[0].state == Pending {
        assert FirstPending(ts) == 0;
        FirstPendingSplits(ts[1..]);
        PendingAgentsAt(ts[1..], n - 1);
        forall j | 0 < j < |PendingAgents(ts, n)|
          ensures PendingAgents(ts, n)[j] == ts[j].agent
        {
          assert PendingAgents(ts, n)[j] == PendingAgents(ts[1..], n - 1)[j - 1];
        }
      } else {
        PendingAgentsAt(ts[1..], n);
      }
    }
  }

  /** The loop of queueRolloutBatch: serving one more agent extends the batch by one target. */
  lemma ActivateStep(ts: seq<Target>, n: nat, j: nat, id: CommandId)
    requires DistinctAgents(ts) && PendingIsSuffix(ts)
    requires j < |PendingAgents(ts, n)|
    ensures Assign(Activate(ts, j, id), PendingAgents(ts, n)[j], id + j) == Activate(ts, j + 1, id)
  {
    ActivateIsBatch(ts, j, id);
    ActivateIsBatch(ts, j + 1, id);
    PendingAgentsAt(ts, n);
    var k := FirstPending(ts);
    var before, after := Activate(ts, j, id), Activate(ts, j + 1, id);
    assert BatchAt(ts, before, k, j, id) && BatchAt(ts, after, k, j + 1, id);
    var got := Assign(before, ts[k + j].agent, id + j);
    forall i | 0 <= i < |ts| ensures got[i] == after[i] {
      if i != k + j { assert ts[i].agent != ts[k + j].agent; }
    }
  }

  /** A batch keeps the shape of the target table. */
  lemma ActivateKeepsShape(ts: seq<Target>, n: nat, id: CommandId)
    requires PendingIsSuffix(ts) && QueuedHaveCommands(ts) && DistinctAgents(ts)
    ensures var r := Activate(ts, n, id);
      PendingIsSuffix(r) && QueuedHaveCommands(r) && DistinctAgents(r)
  {
    ActivateIsBatch(ts, n, id);
    FirstPendingSplits(ts);
    var r := Activate(ts, n, id);
    forall i, j | 0 <= i < j < |r| ensures r[i].agent != r[j].agent {
      assert r[i].agent == ts[i].agent && r[j].agent == ts[j].agent;
    }
  }

  // ---------- recording a result ----------

  /** No two targets of a rollout wait for the same command. */
  ghost predicate OwnCommands(ts: seq<Target>) {
    forall i, j :: 0 <= i < j < |ts| && ts[i].command.Some? ==> ts[i].command != ts[j].command
  }

  function Outcome(failed: bool): TargetState { if failed then Broken else Done }

  /** The rollout once the target of command c is marked and the counters are stored. */
  function Recorded(ro: Rollout, c: CommandId, failed: bool): Rollout {
    Settle(ro.(targets := Mark(ro.targets, c, Outcome(failed))))
  }

  /** A RUNNING rollout between two batches: nothing active, something pending, budget left. */
  ghost predicate BetweenBatches(ro: Rollout) {
    && 1 <= ro.batch <= |ro.targets|
    && ro.total == |ro.targets|
    && DistinctAgents(ro.targets)
    && PendingIsSuffix(ro.targets)
    && QueuedHaveCommands(ro.targets)
    && ro.completed == Count(ro.targets, Done)
    && ro.failed == Count(ro.targets, Broken)
    && ro.state == Running
    && WantsBatch(ro)
  }

  lemma MarkIsUpdate(ts: seq<Target>, k: nat, c: CommandId, s: TargetState)
    requires OwnCommands(ts)
    requires k < |ts| && ts[k].command == Some(c)
    ensures Mark(ts, c, s) == ts[k := ts[k].(state := s)]
  {
  }

  /** The first result of a target: one step less to go, and the invariant or a batch is due. */
  lemma FirstResult(ro: Rollout, k: nat, c: CommandId, failed: bool)
    requires RolloutInv(ro) && OwnCommands(ro.targets)
    requires k < |ro.targets| && ro.targets[k].command == Some(c) && ro.targets[k].state == Active
    ensures var r := Recorded(ro, c, failed);
      && Remaining(r) == Remaining(ro) - 1
      && (if WantsBatch(r) then BetweenBatches(r) else RolloutInv(r))
  {
    MarkFirst(ro.targets, k, c, failed);
    MarkShape(ro.targets, c, failed);
  }

  lemma MarkShape(ts: seq<Target>, c: CommandId, failed: bool)
    requires PendingIsSuffix(ts) && QueuedHaveCommands(ts) && DistinctAgents(ts)
    ensures var us := Mark(ts, c, Outcome(failed));
      PendingIsSuffix(us) && QueuedHaveCommands(us) && DistinctAgents(us)
  {
  }

  /** How the counts move when a target gets a result. */
  lemma MarkCounts(ts: seq<Target>, k: nat, c: CommandId, s: TargetState, t: TargetState)
    requires OwnCommands(ts)
    requires k < |ts| && ts[k].command == Some(c)
    ensures Count(Mark(ts, c, s), t)
      == Count(ts, t) - (if ts[k].state == t then 1 else 0) + (if s == t then 1 else 0)
  {
    MarkIsUpdate(ts, k, c, s);
    CountUpdate(ts, k, ts[k].(state := s), t);
  }

  /** How the counts move when an ACTIVE target gets its result. */
  lemma MarkFirst(ts: seq<Target>, k: nat, c: CommandId, failed: bool)
    requires OwnCommands(ts)
    requires k < |ts| && ts[k].command == Some(c) && ts[k].state == Active
    ensures var us := Mark(ts, c, Outcome(failed));
      && Count(us, Pending) == Count(ts, Pending)
      && Count(us, Active) == Count(ts, Active) - 1
      && Count(us, Done) == Count(ts, Done) + (if failed then 0 else 1)
      && Count(us, Broken) == Count(ts, Broken) + (if failed then 1 else 0)
  {
    forall t ensures Count(Mark(ts, c, Outcome(failed)), t)
      == Count(ts, t) - (if t == Active then 1 else 0) + (if t == Outcome(failed) then 1 else 0)
    {
      MarkCounts(ts, k, c, Outcome(failed), t);
    }
  }

  /**
    The rollout can take it that the outcome of a target is turned round: one more failure
    must stay within the budget and a batch, and one less must not bring a failed rollout
    that is not over back under its budget.
   */
  predicate CanFlip(ro: Rollout, failed: bool) {
    if failed then ro.failed + 1 + Count(ro.targets, Active) <= ro.maxFailures + ro.batch
    else
      || ro.failed != ro.maxFailures + 1
      || (Count(ro.targets, Active) == 0 && Count(ro.targets, Pending) == 0)
  }

  /** A result that contradicts an earlier one asks for no batch, and may or may not keep the invariant. */
  lemma FlippedResult(ro: Rollout, k: nat, c: CommandId, failed: bool)
    requires RolloutInv(ro) && OwnCommands(ro.targets)
    requires k < |ro.targets| && ro.targets[k].command == Some(c) && ro.targets[k].state == Outcome(!failed)
    ensures var r := Recorded(ro, c, failed);
      && (RolloutInv(r) <==> CanFlip(ro, failed))
      && !(WantsBatch(r) && r.state == Running)
  {
    forall t ensures Count(Mark(ro.targets, c, Outcome(failed)), t)
      == Count(ro.targets, t) - (if t == Outcome(!failed) then 1 else 0) + (if t == Outcome(failed) then 1 else 0)
    {
      MarkCounts(ro.targets, k, c, Outcome(failed), t);
    }
    CountPositive(ro.targets, k);
    MarkShape(ro.targets, c, failed);
  }

  /** A batch leaves a target alone that is not PENDING. */
  lemma {:induction false} ActivateKeeps(ts: seq<Target>, n: nat, id: CommandId, k: nat)
    requires k < |ts| && ts[k].state != Pending
    ensures Activate(ts, n, id)[k] == ts[k]
    decreases |ts|
  {
    if n > 0 && k > 0 {
      if ts[0].state == Pending {
        ActivateKeeps(ts[1..], n - 1, id + 1, k - 1);
      } else {
        ActivateKeeps(ts[1..], n, id, k - 1);
      }
    }
  }

  /** A repeated result changes nothing and asks for no batch: a RUNNING rollout has an ACTIVE target. */
  lemma RepeatedResult(ro: Rollout, k: nat, c: CommandId, failed: bool)
    requires RolloutInv(ro) && OwnCommands(ro.targets)
    requires k < |ro.targets| && ro.targets[k].command == Some(c) && ro.targets[k].state == Outcome(failed)
    ensures Recorded(ro, c, failed) == ro
    ensures !WantsBatch(ro)
  {
    MarkIsUpdate(ro.targets, k, c, Outcome(failed));
    assert ro.targets[k := ro.targets[k].(state := Outcome(failed))] == ro.targets;
  }

  /** Queueing a batch re-establishes the invariant. */
  lemma BatchKeepsInv(ro: Rollout, id: CommandId)
    requires BetweenBatches(ro)
    ensures var r := ro.(targets := Activate(ro.targets, ro.batch, id));
      && RolloutInv(r)
      && Remaining(r) == Remaining(ro) - Min(ro.batch, Count(ro.targets, Pending))
  {
    ActivateCounts(ro.targets, ro.batch, id);
    ActivateKeepsShape(ro.targets, ro.batch, id);
  }

  /** A rollout that is still RUNNING waits for some target, so it cannot stall. */
  lemma RunningHasActive(ro: Rollout) returns (k: nat)
    requires RolloutInv(ro) && ro.state == Running
    ensures k < |ro.targets| && ro.targets[k].state == Active && ro.targets[k].command.Some?
  {
    k := CountWitness(ro.targets, Active);
  }

  /**
    Failures overshoot the budget by at most one batch, at most one batch is ever in
    flight, the stored counters account for every target that has a result, and the
    rollout is over exactly when the counts say so.
   */
  lemma RolloutBounds(ro: Rollout)
    requires RolloutInv(ro)
    ensures ro.failed <= ro.maxFailures + ro.batch
    ensures ro.completed + ro.failed + Count(ro.targets, Active) + Count(ro.targets, Pending) == ro.total
    ensures Remaining(ro) <= 2 * ro.total
    ensures ro.state == Completed <==> ro.completed + ro.failed == ro.total && ro.failed <= ro.maxFailures
    ensures ro.state == Failed <==> ro.failed > ro.maxFailures
  {
    CountsSum(ro.targets);
  }
}

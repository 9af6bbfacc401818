/**
  The safe-transaction pipeline: ownership gate, validation, snapshot, apply, verify and
  rollback, over a backend that may fail anywhere and may apply part of a transaction.
 */
module TransactionManager {
  import opened Basics
  import opened IptablesBackend

  datatype Outcome =
    | WritesBlocked
    | ReadFailed
    | Invalid
    | SnapshotFailed
    | ApplyFailed
    | VerifyFailed
    | RollbackFailed
    | Success(hash: Digest)

  datatype Issue = Issue(code: string, severity: string)

  const ROLLBACK_FAILED := Issue("FW_ROLLBACK_FAILED", "critical")

  /** What the manager remembers; `issues` are the events it emitted. */
  datatype Memory = Memory(
    writesAllowed: bool,
    snapshots: map<nat, Snapshot>,
    lastSnapshot: Option<Snapshot>,
    lastHash: Option<Digest>,
    issues: seq<Issue>)

  /**
    What the backend will answer.  `ownership` is the refreshed report, if there is one;
    `snapshotFails` is for backends whose Snapshot reports errors.
   */
  datatype Weather = Weather(
    ownership: Option<bool>,
    listed: bool,
    valid: bool,
    critical: bool,
    snapshotFails: bool,
    id: nat,
    saved4: bool,
    saved6: bool,
    runs: seq<ActionRun>,
    hashed: bool,
    verified: bool,
    run4: RestoreRun,
    run6: RestoreRun)

  function Refreshed(m: Memory, w: Weather): Memory {
    if w.ownership.Some? then m.(writesAllowed := w.ownership.value) else m
  }

  function Captured(f: Firewall, w: Weather): Snapshot {
    Snapshot(w.id, if w.saved4 then f.v4 else "", if w.saved6 then f.v6 else "")
  }

  function AfterApply(f: Firewall, w: Weather): Firewall { f.(v4 := RunActions(f.v4, w.runs).text) }

  function ApplyHash(f: Firewall, w: Weather): Digest {
    Sha256(if w.hashed then AfterApply(f, w).v4 else "")
  }

  datatype Done = Done(memory: Memory, firewall: Firewall, outcome: Outcome)

  /** Rolling back after the transaction got as far as g. */
  function RolledBack(m: Memory, g: Firewall, s: Snapshot, has6: bool, w: Weather, failure: Outcome): Done {
    var (h, ok) := Reinstate(g, s, has6, w.run4, w.run6);
    if ok then Done(m, h, failure)
    else Done(m.(issues := m.issues + [ROLLBACK_FAILED]), h, RollbackFailed)
  }

  /** ApplyTransaction as a function of what the backend answers. */
  function Transact(m0: Memory, f: Firewall, has6: bool, w: Weather): Done {
    var m := Refreshed(m0, w);
    if !m.writesAllowed then Done(m, f, WritesBlocked)
    else if !w.listed then Done(m, f, ReadFailed)
    else if !w.valid || w.critical then Done(m, f, Invalid)
    else if w.snapshotFails then Done(m, f, SnapshotFailed)
    else
      var s, g := Captured(f, w), AfterApply(f, w);
      if !RunActions(f.v4, w.runs).ok then RolledBack(m, g, s, has6, w, ApplyFailed)
      else if !w.verified || Sha256(g.v4) != ApplyHash(f, w) then RolledBack(m, g, s, has6, w, VerifyFailed)
      else
        Done(m.(snapshots := m.snapshots[s.id := s], lastSnapshot := Some(s), lastHash := Some(ApplyHash(f, w))),
             g, Success(ApplyHash(f, w)))
  }

  class Manager {
    const backend: Backend
    var writesAllowed: bool
    var snapshots: map<nat, Snapshot>
    var lastSnapshot: Option<Snapshot>
    var lastHash: Option<Digest>
    var issues: seq<Issue>

    ghost function Remembered(): Memory reads this {
      Memory(writesAllowed, snapshots, lastSnapshot, lastHash, issues)
    }

    constructor (backend: Backend)
      ensures this.backend == backend
      ensures Remembered() == Memory(false, map[], None, None, [])
    {
      this.backend := backend;
      writesAllowed, snapshots, lastSnapshot, lastHash, issues := false, map[], None, None, [];
    }

    method Emit(issue: Issue)
      modifies this`issues
      ensures issues == old(issues) + [issue]
    {
      issues := issues + [issue];
    }

    method RefreshOwnership(report: Option<bool>)
      modifies this`writesAllowed
      ensures writesAllowed == if report.Some? then report.value else old(writesAllowed)
    {
      if report.Some? {
        writesAllowed := report.value;
      }
    }

    method ApplyTransaction(w: Weather) returns (outcome: Outcome)
      modifies this, backend
      ensures Done(Remembered(), backend.state, outcome)
        == Transact(old(Remembered()), old(backend.state), backend.has6, w)
    {
      RefreshOwnership(w.ownership);
      if !writesAllowed {
        return WritesBlocked;
      }
      if !w.listed {
        return ReadFailed;
      }
      if !w.valid {
        return Invalid;
      }
      if w.critical {
        return Invalid;
      }
      if w.snapshotFails {
        return SnapshotFailed;
      }
      var snap := backend.TakeSnapshot(w.id, w.saved4, w.saved6);
      var applied, ok, hash := backend.Apply(w.runs, w.hashed);
      if !ok {
        var restored := backend.Restore(snap, w.run4, w.run6);
        if !restored {
          Emit(ROLLBACK_FAILED);
          return RollbackFailed;
        }
        return ApplyFailed;
      }
      var matches := backend.Verify(hash, w.verified);
      if matches != Some(true) {
        var restored := backend.Restore(snap, w.run4, w.run6);
        if !restored {
          Emit(ROLLBACK_FAILED);
          return RollbackFailed;
        }
        return VerifyFailed;
      }
      snapshots := snapshots[snap.id := snap];
      lastSnapshot := Some(snap);
      lastHash := Some(hash);
      outcome := Success(hash);
    }

    /** A manual snapshot is handed out and not remembered. */
    method CreateSnapshot(id: nat, fails: bool, saved4: bool, saved6: bool) returns (s: Option<Snapshot>)
      ensures s == if fails then None
                   else Some(Snapshot(id, if saved4 then backend.state.v4 else "",
                                       if saved6 then backend.state.v6 else ""))
    {
      if fails {
        return None;
      }
      var snap := backend.TakeSnapshot(id, saved4, saved6);
      s := Some(snap);
    }

    method RestoreSnapshot(s: Snapshot, run4: RestoreRun, run6: RestoreRun) returns (ok: bool)
      modifies backend
      ensures (backend.state, ok) == Reinstate(old(backend.state), s, backend.has6, run4, run6)
    {
      ok := backend.Restore(s, run4, run6);
    }

    method RestoreLast(run4: RestoreRun, run6: RestoreRun) returns (ok: bool)
      modifies backend
      ensures lastSnapshot.None? ==> !ok && backend.state == old(backend.state)
      ensures lastSnapshot.Some? ==>
        (backend.state, ok) == Reinstate(old(backend.state), lastSnapshot.value, backend.has6, run4, run6)
    {
      if lastSnapshot.None? {
        return false;
      }
      ok := backend.Restore(lastSnapshot.value, run4, run6);
    }
  }

  // ---------- what each outcome means ----------

  /**
    What every outcome says about the firewall and the issues, for all backend behaviour.
    The IPv4 rule set was captured when its save succeeded and printed something.
   */
  lemma OutcomeTheorem(m: Memory, f: Firewall, has6: bool, w: Weather)
    ensures var d := Transact(m, f, has6, w);
      match d.outcome
      case Success(hash) =>
        && Sha256(d.firewall.v4) == hash && d.firewall.v6 == f.v6
        && d.memory.lastSnapshot == Some(Captured(f, w)) && d.memory.lastHash == Some(hash)
        && d.memory.snapshots == m.snapshots[w.id := Captured(f, w)]
        && d.memory.issues == m.issues
      case RollbackFailed =>
        && d.memory.issues == m.issues + [ROLLBACK_FAILED]
        && d.memory.lastSnapshot == m.lastSnapshot && d.memory.lastHash == m.lastHash
        && d.memory.snapshots == m.snapshots
      case _ =>
        && d.memory.issues == m.issues
        && d.memory.lastSnapshot == m.lastSnapshot && d.memory.lastHash == m.lastHash
        && d.memory.snapshots == m.snapshots
        && (d.outcome.ApplyFailed? || d.outcome.VerifyFailed? || d.firewall == f)
        && (Captured(f, w).v4 != "" ==> d.firewall == f)
  {
  }

  /** The ownership report of this transaction, or the last one that there was, allows writes. */
  predicate OwnershipAllows(m: Memory, w: Weather) {
    (w.ownership == None && m.writesAllowed) || w.ownership == Some(true)
  }

  /** Every gate before the first mutation lets the transaction through. */
  predicate GatesPass(m: Memory, w: Weather) {
    OwnershipAllows(m, w) && w.listed && w.valid && !w.critical && !w.snapshotFails
  }

  ghost predicate AllSucceed(runs: seq<ActionRun>) { forall i :: 0 <= i < |runs| ==> Succeeded(runs[i]) }

  /** The rule set can be read after applying, and it was when its hash was taken, unless it is empty. */
  predicate StateConfirmed(f: Firewall, w: Weather) { w.verified && (w.hashed || RunActions(f.v4, w.runs).text == "") }

  /** A restore of what was captured succeeds. */
  predicate RestoreWorks(f: Firewall, has6: bool, w: Weather) {
    && (w.saved4 && f.v4 != "" ==> w.run4.Loaded?)
    && (w.saved6 && f.v6 != "" && has6 ==> w.run6.Loaded?)
  }

  /**
    Which gate or step decides the outcome.  Each early outcome names the first gate that
    refuses, a transaction succeeds exactly when every gate, every action and the
    verification pass, and a firewall that changed has passed every gate.
   */
  lemma OutcomesExact(m: Memory, f: Firewall, has6: bool, w: Weather)
    ensures var d := Transact(m, f, has6, w); var passed := GatesPass(m, w);
      var good := AllSucceed(w.runs) && StateConfirmed(f, w);
      && (d.outcome == WritesBlocked <==> !OwnershipAllows(m, w))
      && (d.outcome == ReadFailed <==> OwnershipAllows(m, w) && !w.listed)
      && (d.outcome == Invalid <==> OwnershipAllows(m, w) && w.listed && (!w.valid || w.critical))
      && (d.outcome == SnapshotFailed <==>
            OwnershipAllows(m, w) && w.listed && w.valid && !w.critical && w.snapshotFails)
      && (d.outcome.Success? <==> passed && good)
      && (d.outcome == ApplyFailed <==> passed && !AllSucceed(w.runs) && RestoreWorks(f, has6, w))
      && (d.outcome == VerifyFailed <==>
            passed && AllSucceed(w.runs) && !StateConfirmed(f, w) && RestoreWorks(f, has6, w))
      && (d.outcome == RollbackFailed <==> passed && !good && !RestoreWorks(f, has6, w))
      && (d.firewall != f ==> passed)
      && (d.memory.writesAllowed <==> OwnershipAllows(m, w))
  {
    RunActionsExact(f.v4, w.runs);
  }

  /**
    A rollback that reports success restores the state exactly when the IPv4 rule set was
    captured, or the transaction had left it as it was.
   */
  lemma RollbackExact(m: Memory, f: Firewall, has6: bool, w: Weather)
    requires var o := Transact(m, f, has6, w).outcome; o == ApplyFailed || o == VerifyFailed
    ensures Transact(m, f, has6, w).firewall == f <==>
      Captured(f, w).v4 != "" || RunActions(f.v4, w.runs).text == f.v4
  {
  }

  /** A save that fails unnoticed, then a half-applied transaction: the rollback restores nothing. */
  lemma UncapturedRollback()
    ensures
      var f := Firewall("old", "six");
      var w := Weather(None, true, true, false, false, 0, false, true,
                       [Ran(true, "half"), Ran(false, "half")], true, true, Loaded, Loaded);
      var d := Transact(Memory(true, map[], None, None, []), f, true, w);
      d.outcome == ApplyFailed && d.firewall == Firewall("half", "six") && d.memory.issues == []
  {
  }

  // ---------- restoring the last transaction ----------

  datatype Event =
    | Transaction(weather: Weather)
    | ManualSnapshot
    | ManualRestore(snapshot: Snapshot, run4: RestoreRun, run6: RestoreRun)
    | LastRestore(run4: RestoreRun, run6: RestoreRun)
    | ChangedElsewhere(firewall: Firewall)

  datatype World = World(memory: Memory, firewall: Firewall)

  function Next(x: World, has6: bool, e: Event): World {
    match e
    case Transaction(w) =>
      var d := Transact(x.memory, x.firewall, has6, w);
      World(d.memory, d.firewall)
    case ManualSnapshot => x
    case ManualRestore(s, run4, run6) => x.(firewall := Reinstate(x.firewall, s, has6, run4, run6).0)
    case LastRestore(run4, run6) =>
      if x.memory.lastSnapshot.None? then x
      else x.(firewall := Reinstate(x.firewall, x.memory.lastSnapshot.value, has6, run4, run6).0)
    case ChangedElsewhere(f) => x.(firewall := f)
  }

  function Play(x: World, has6: bool, es: seq<Event>): World
    decreases |es|
  {
    if es == [] then x else Play(Next(x, has6, es[0]), has6, es[1..])
  }

  /** The state just before the most recent successful transaction of a run, and its snapshot. */
  function BeforeLastSuccess(x: World, has6: bool, es: seq<Event>, before: Option<(Firewall, Snapshot)>)
    : Option<(Firewall, Snapshot)>
    decreases |es|
  {
    if es == [] then before
    else
      var succeeded := es[0].Transaction? && Transact(x.memory, x.firewall, has6, es[0].weather).outcome.Success?;
      BeforeLastSuccess(Next(x, has6, es[0]), has6, es[1..],
        if succeeded then Some((x.firewall, Captured(x.firewall, es[0].weather))) else before)
  }

  lemma {:induction false} LastSnapshotIsOfLastSuccess(x: World, has6: bool, es: seq<Event>,
                                                       before: Option<(Firewall, Snapshot)>)
    requires x.memory.lastSnapshot == if before.Some? then Some(before.value.1) else None
    requires before.Some? ==>
      before.value.1.v4 in {"", before.value.0.v4} && before.value.1.v6 in {"", before.value.0.v6}
    ensures var after := BeforeLastSuccess(x, has6, es, before);
      && Play(x, has6, es).memory.lastSnapshot == (if after.Some? then Some(after.value.1) else None)
      && (after.Some? ==> after.value.1.v4 in {"", after.value.0.v4} && after.value.1.v6 in {"", after.value.0.v6})
    decreases |es|
  {
    if es != [] {
      var succeeded := es[0].Transaction? && Transact(x.memory, x.firewall, has6, es[0].weather).outcome.Success?;
      LastSnapshotIsOfLastSuccess(Next(x, has6, es[0]), has6, es[1..],
        if succeeded then Some((x.firewall, Captured(x.firewall, es[0].weather))) else before);
    }
  }

  /**
    After any run of transactions, manual snapshots and restores and outside changes, a
    restore of the last transaction that succeeds brings back, for each rule set that its
    snapshot captured, exactly what it was just before the most recent successful transaction.
   */
  lemma RestoreLastBringsBack(start: Firewall, has6: bool, es: seq<Event>, run4: RestoreRun, run6: RestoreRun)
    ensures
      var x0 := World(Memory(false, map[], None, None, []), start);
      var x := Play(x0, has6, es);
      var before := BeforeLastSuccess(x0, has6, es, None);
      && (x.memory.lastSnapshot.Some? <==> before.Some?)
      && (before.Some? && Reinstate(x.firewall, x.memory.lastSnapshot.value, has6, run4, run6).1 ==>
            var restored := Next(x, has6, LastRestore(run4, run6)).firewall;
            && (before.value.1.v4 != "" ==> restored.v4 == before.value.0.v4)
            && (before.value.1.v4 == "" ==> restored.v4 == x.firewall.v4)
            && (before.value.1.v6 != "" && has6 ==> restored.v6 == before.value.0.v6)
            && (before.value.1.v6 == "" || !has6 ==> restored.v6 == x.firewall.v6))
  {
    LastSnapshotIsOfLastSuccess(World(Memory(false, map[], None, None, []), start), has6, es, None);
  }
}

/**
  The size- and age-bounded log files and the encrypting writer on top of them.  The clock
  is a parameter, the log directory holds nothing but the log's own files, and file
  operations succeed.
 */
module LogRotation {
  import opened Basics
  import opened LogFrames

  datatype Policy = Policy(maxBytes: int, maxBackups: int, maxAge: int)

  /** A file with its modification time. */
  datatype LogFile = LogFile(time: int, data: seq<Byte>)

  datatype Store = Store(rotated: seq<LogFile>, active: LogFile)

  /** sort.Slice by modification time, as far as distinct times determine it. */
  function InsertByTime(s: seq<LogFile>, f: LogFile): (t: seq<LogFile>)
    ensures |t| == |s| + 1
  {
    if s == [] || s[|s| - 1].time <= f.time then s + [f]
    else InsertByTime(s[..|s| - 1], f) + [s[|s| - 1]]
  }

  function SortByTime(s: seq<LogFile>): (t: seq<LogFile>)
    ensures |t| == |s|
  {
    if s == [] then [] else InsertByTime(SortByTime(s[..|s| - 1]), s[|s| - 1])
  }

  /** The loop of the retention pass over files, oldest first, `keep` of them left so far. */
  function Survivors(olds: seq<LogFile>, keep: int, maxBackups: int, cutoff: int): seq<LogFile> {
    if olds == [] then []
    else if keep > maxBackups || olds[0].time < cutoff then Survivors(olds[1..], keep - 1, maxBackups, cutoff)
    else [olds[0]] + Survivors(olds[1..], keep, maxBackups, cutoff)
  }

  function Enforce(files: seq<LogFile>, policy: Policy, now: int): seq<LogFile> {
    Survivors(SortByTime(files), |files|, policy.maxBackups, now - policy.maxAge)
  }

  function Rotate(s: Store, policy: Policy, now: int): Store {
    Store(Enforce(s.rotated + [s.active], policy, now), LogFile(now, []))
  }

  function Append(s: Store, policy: Policy, p: seq<Byte>, now: int): Store {
    var t := if |s.active.data| + |p| > policy.maxBytes then Rotate(s, policy, now) else s;
    t.(active := LogFile(now, t.active.data + p))
  }

  function Janitor(s: Store, policy: Policy, now: int): Store {
    s.(rotated := Enforce(s.rotated, policy, now))
  }

  // ---------- the objects ----------

  class Rotator {
    const policy: Policy
    var open: bool
    var size: int
    var active: LogFile
    var rotated: seq<LogFile>

    ghost function Files(): Store reads this { Store(rotated, active) }

    ghost predicate Valid() reads this { size == |active.data| }

    /** Opens the log; what the active file holds already counts. */
    constructor (policy: Policy, existing: LogFile, rotated: seq<LogFile>)
      ensures Valid() && open && this.policy == policy && Files() == Store(rotated, existing)
    {
      this.policy, open, size := policy, true, |existing.data|;
      active, this.rotated := existing, rotated;
    }

    method Write(p: seq<Byte>, now: int) returns (n: Option<nat>)
      requires Valid()
      modifies this
      ensures Valid() && open == old(open)
      ensures n == if open then Some(|p|) else None
      ensures Files() == if open then Append(old(Files()), policy, p, now) else old(Files())
    {
      if !open {
        return None;
      }
      if size + |p| > policy.maxBytes {
        RotateLocked(now);
      }
      active := LogFile(now, active.data + p);
      size := size + |p|;
      n := Some(|p|);
    }

    method RotateLocked(now: int)
      modifies this`size, this`active, this`rotated
      ensures Valid() && Files() == Rotate(old(Files()), policy, now)
    {
      rotated := rotated + [active];
      active := LogFile(now, []);
      size := 0;
      EnforceLocked(now);
    }

    method EnforceLocked(now: int)
      modifies this`rotated
      ensures Files() == Janitor(old(Files()), policy, now)
    {
      var olds := SortByTime(rotated);
      var cutoff := now - policy.maxAge;
      var keep := |olds|;
      var left: seq<LogFile> := [];
      var i := 0;
      while i < |olds|
        invariant 0 <= i <= |olds|
        invariant left + Survivors(olds[i..], keep, policy.maxBackups, cutoff)
          == Survivors(olds, |olds|, policy.maxBackups, cutoff)
      {
        var o := olds[i];
        assert olds[i..][0] == o && olds[i..][1..] == olds[i + 1..];
        var tooMany := keep > policy.maxBackups;
        var tooOld := o.time < cutoff;
        if tooMany || tooOld {
          keep := keep - 1;
        } else {
          left := left + [o];
        }
        i := i + 1;
      }
      rotated := left;
    }

    method Close()
      modifies this`open
      ensures !open
    {
      open := false;
    }
  }

  class EncryptingRotator {
    const aead: Aead
    const rotator: Rotator
    var counter: nat

    constructor (aead: Aead, rotator: Rotator)
      ensures this.aead == aead && this.rotator == rotator && counter == 0
    {
      this.aead, this.rotator, counter := aead, rotator, 0;
    }

    /** Seals one record under the next nonce and appends its frame. */
    method Write(p: seq<Byte>, now: int) returns (n: Option<nat>)
      requires rotator.Valid()
      modifies this, rotator
      ensures rotator.Valid() && counter == old(counter) + 1
      ensures n == if old(rotator.open) then Some(|p|) else None
      ensures rotator.Files() ==
        if old(rotator.open)
        then Append(old(rotator.Files()), rotator.policy, Frame(aead, Record(old(counter), p)), now)
        else old(rotator.Files())
    {
      var nonce := Nonce(counter);
      var sealed := nonce + aead.seal(nonce, p);
      var buf := BigEndian(|sealed|, 4) + sealed;
      counter := counter + 1;
      var written := rotator.Write(buf, now);
      n := if written.Some? then Some(|p|) else None;
    }
  }

  // ---------- the retention pass ----------

  ghost predicate Increasing(s: seq<LogFile>) {
    forall i, j :: 0 <= i < j < |s| ==> s[i].time < s[j].time
  }

  lemma {:induction false} SortIncreasing(s: seq<LogFile>)
    requires Increasing(s)
    ensures SortByTime(s) == s
  {
    if s != [] {
      SortIncreasing(s[..|s| - 1]);
      assert s == s[..|s| - 1] + [s[|s| - 1]];
    }
  }

  lemma {:induction false} YoungSurvive(olds: seq<LogFile>, keep: int, maxBackups: int, cutoff: int)
    requires keep <= maxBackups && forall i :: 0 <= i < |olds| ==> olds[i].time >= cutoff
    ensures Survivors(olds, keep, maxBackups, cutoff) == olds
  {
    if olds != [] { YoungSurvive(olds[1..], keep, maxBackups, cutoff); }
  }

  /**
    A retention pass removes exactly the oldest files: those that are too old, and as many
    more as it takes to come down to the limit.
   */
  lemma {:induction false} SurvivorsAreSuffix(olds: seq<LogFile>, maxBackups: int, cutoff: int) returns (k: nat)
    requires Increasing(olds)
    ensures k <= |olds|
    ensures Survivors(olds, |olds|, maxBackups, cutoff) == olds[k..]
    ensures |olds| - k <= if maxBackups < 0 then 0 else maxBackups
    ensures k < |olds| ==> olds[k].time >= cutoff
    ensures k > 0 ==> olds[k - 1].time < cutoff || |olds| - (k - 1) > maxBackups
  {
    if olds == [] {
      k := 0;
    } else if |olds| > maxBackups || olds[0].time < cutoff {
      var m := SurvivorsAreSuffix(olds[1..], maxBackups, cutoff);
      k := m + 1;
      assert olds[1..][m..] == olds[k..];
    } else {
      YoungSurvive(olds, |olds|, maxBackups, cutoff);
      k := 0;
    }
  }

  // ---------- runs of the encrypted log ----------

  /** A record is written, a retention pass is made, or the agent restarts and opens the log again. */
  datatype Event =
    | Wrote(plain: seq<Byte>, now: int)
    | Passed(now: int)
    | Reopened(now: int)

  datatype Log = Log(store: Store, counter: nat)

  function Next(a: Aead, policy: Policy, l: Log, e: Event): Log {
    match e
    case Wrote(p, now) => Log(Append(l.store, policy, Frame(a, Record(l.counter, p)), now), l.counter + 1)
    case Passed(now) => l.(store := Janitor(l.store, policy, now))
    case Reopened(now) => l.(counter := 0)
  }

  function Play(a: Aead, policy: Policy, l: Log, es: seq<Event>): Log
    decreases |es|
  {
    if es == [] then l else Play(a, policy, Next(a, policy, l, es[0]), es[1..])
  }

  /** The record that an event writes, if any. */
  function Adds(counter: nat, e: Event): seq<Record> {
    match e
    case Wrote(p, now) => [Record(counter, p)]
    case Passed(now) => []
    case Reopened(now) => []
  }

  /** The number of the next nonce; it starts over when the log is opened again. */
  function NextCounter(counter: nat, e: Event): nat {
    match e
    case Wrote(p, now) => counter + 1
    case Passed(now) => counter
    case Reopened(now) => 0
  }

  /** The records that a run writes, in order. */
  function Written(counter: nat, es: seq<Event>): seq<Record>
    decreases |es|
  {
    if es == [] then []
    else Adds(counter, es[0]) + Written(NextCounter(counter, es[0]), es[1..])
  }

  /** The plaintexts that were handed to the writer, one after the other. */
  function Texts(es: seq<Event>): seq<Byte> {
    if es == [] then [] else (if es[0].Wrote? then es[0].plain else []) + Texts(es[1..])
  }

  /** The records of a run hold exactly these plaintexts. */
  lemma {:induction false} WrittenIsTexts(counter: nat, es: seq<Event>)
    ensures Plain(Written(counter, es)) == Texts(es)
    decreases |es|
  {
    if es != [] {
      var rest := Written(NextCounter(counter, es[0]), es[1..]);
      WrittenIsTexts(NextCounter(counter, es[0]), es[1..]);
      if es[0].Wrote? {
        assert ([Record(counter, es[0].plain)] + rest)[1..] == rest;
      } else {
        assert [] + rest == rest && [] + Texts(es[1..]) == Texts(es[1..]);
      }
    }
  }

  /** The clock moves on at every event. */
  ghost predicate Ticking(es: seq<Event>, last: int)
    decreases |es|
  {
    es != [] ==> last < es[0].now && Ticking(es[1..], es[0].now)
  }

  /** All files, the active one last. */
  function Files(s: Store): seq<LogFile> { s.rotated + [s.active] }

  /** The files hold whole frames: file i those of the records rss[i]. */
  ghost predicate Holds(a: Aead, files: seq<LogFile>, rss: seq<seq<Record>>) {
    |files| == |rss| && forall i :: 0 <= i < |files| ==> files[i].data == File(a, rss[i])
  }

  function Flatten(rss: seq<seq<Record>>): seq<Record> {
    if rss == [] then [] else Flatten(rss[..|rss| - 1]) + rss[|rss| - 1]
  }

  /** A file is no larger than the limit or one frame. */
  ghost predicate Bounded(files: seq<LogFile>, bound: int) {
    forall i :: 0 <= i < |files| ==> |files[i].data| <= bound
  }

  function Max(x: int, y: int): int { if x < y then y else x }

  /** What holds between events, when `log` was written and `dropped` of it is gone. */
  ghost predicate LogInv(a: Aead, policy: Policy, s: Store, last: int, largest: nat,
                         log: seq<Record>, dropped: seq<Record>, rss: seq<seq<Record>>) {
    && Increasing(Files(s))
    && s.active.time <= last
    && |s.rotated| <= Max(policy.maxBackups, 0)
    && Bounded(Files(s), Max(policy.maxBytes, largest))
    && Holds(a, Files(s), rss)
    && log == dropped + Flatten(rss)
  }

  lemma {:induction false} FlattenSplit(rss: seq<seq<Record>>, k: nat)
    requires k <= |rss|
    ensures Flatten(rss) == Flatten(rss[..k]) + Flatten(rss[k..])
  {
    if k == |rss| {
      assert rss[..k] == rss && rss[k..] == [];
    } else {
      FlattenSplit(rss[..|rss| - 1], k);
      assert rss[..|rss| - 1][..k] == rss[..k];
      assert rss[k..][..|rss[k..]| - 1] == rss[..|rss| - 1][k..];
      assert rss[k..][|rss[k..]| - 1] == rss[|rss| - 1];
    }
  }

  lemma FlattenSnoc(rss: seq<seq<Record>>, rs: seq<Record>)
    ensures Flatten(rss + [rs]) == Flatten(rss) + rs
  {
  }

  lemma HoldsSuffix(a: Aead, files: seq<LogFile>, rss: seq<seq<Record>>, k: nat)
    requires Holds(a, files, rss) && k <= |files|
    ensures Holds(a, files[k..], rss[k..])
  {
  }

  /** Dropping the first k files drops the oldest records. */
  lemma DropFront(log: seq<Record>, dropped: seq<Record>, rss: seq<seq<Record>>, k: nat)
    requires log == dropped + Flatten(rss) && k <= |rss|
    ensures log == (dropped + Flatten(rss[..k])) + Flatten(rss[k..])
  {
    FlattenSplit(rss, k);
  }

  lemma EnforceOnIncreasing(policy: Policy, files: seq<LogFile>, now: int)
    requires Increasing(files)
    ensures Enforce(files, policy, now) == Survivors(files, |files|, policy.maxBackups, now - policy.maxAge)
  {
    SortIncreasing(files);
  }

  /** A retention pass drops whole files from the front. */
  lemma EnforceDropsFront(policy: Policy, files: seq<LogFile>, now: int) returns (k: nat)
    requires Increasing(files)
    ensures k <= |files| && Enforce(files, policy, now) == files[k..]
    ensures |files| - k <= Max(policy.maxBackups, 0)
    ensures forall i :: k <= i < |files| ==> files[i].time >= now - policy.maxAge
    ensures k > 0 ==> files[k - 1].time < now - policy.maxAge || |files| - (k - 1) > policy.maxBackups
  {
    EnforceOnIncreasing(policy, files, now);
    k := SurvivorsAreSuffix(files, policy.maxBackups, now - policy.maxAge);
  }

  lemma SuffixKeeps(files: seq<LogFile>, k: nat, bound: int)
    requires k <= |files| && Increasing(files) && Bounded(files, bound)
    ensures Increasing(files[k..]) && Bounded(files[k..], bound)
  {
  }

  /** A new empty file behind the others. */
  lemma SnocKeeps(a: Aead, files: seq<LogFile>, rss: seq<seq<Record>>, bound: int, now: int)
    requires Increasing(files) && Bounded(files, bound) && bound >= 0 && Holds(a, files, rss)
    requires forall i :: 0 <= i < |files| ==> files[i].time < now
    ensures var t := files + [LogFile(now, [])];
      Increasing(t) && Bounded(t, bound) && Holds(a, t, rss + [[]])
  {
  }

  lemma AllBefore(s: Store, now: int)
    requires Increasing(Files(s)) && s.active.time < now
    ensures forall i :: 0 <= i < |Files(s)| ==> Files(s)[i].time < now
  {
    assert Files(s)[|s.rotated|] == s.active;
  }

  lemma JanitorKeepsInv(a: Aead, policy: Policy, s: Store, last: int, largest: nat,
                        log: seq<Record>, dropped: seq<Record>, rss: seq<seq<Record>>, now: int)
    returns (dropped': seq<Record>, rss': seq<seq<Record>>, k: nat)
    requires LogInv(a, policy, s, last, largest, log, dropped, rss)
    ensures LogInv(a, policy, Janitor(s, policy, now), last, largest, log, dropped', rss')
    ensures k <= |rss| && rss' == rss[k..]
  {
    var n, files := |s.rotated|, Files(s);
    assert files[..n] == s.rotated;
    k := EnforceDropsFront(policy, s.rotated, now);
    rss' := rss[k..];
    dropped' := dropped + Flatten(rss[..k]);
    DropFront(log, dropped, rss, k);
    HoldsSuffix(a, files, rss, k);
    SuffixKeeps(files, k, Max(policy.maxBytes, largest));
    assert Files(Janitor(s, policy, now)) == files[k..];
  }

  lemma RotatedFiles(s: Store, policy: Policy, now: int, k: nat)
    requires k <= |Files(s)| && Enforce(Files(s), policy, now) == Files(s)[k..]
    ensures Files(Rotate(s, policy, now)) == Files(s)[k..] + [LogFile(now, [])]
  {
  }

  lemma RotateKeepsInv(a: Aead, policy: Policy, s: Store, last: int, largest: nat,
                       log: seq<Record>, dropped: seq<Record>, rss: seq<seq<Record>>, now: int)
    returns (dropped': seq<Record>, rss': seq<seq<Record>>, k: nat)
    requires LogInv(a, policy, s, last, largest, log, dropped, rss) && last < now
    ensures LogInv(a, policy, Rotate(s, policy, now), now, largest, log, dropped', rss')
    ensures k <= |rss| && rss' == rss[k..] + [[]]
  {
    var files, bound := Files(s), Max(policy.maxBytes, largest);
    k := EnforceDropsFront(policy, files, now);
    rss' := rss[k..] + [[]];
    dropped' := dropped + Flatten(rss[..k]);
    RotatedFiles(s, policy, now, k);
    DropFront(log, dropped, rss, k);
    FlattenSnoc(rss[k..], []);
    HoldsSuffix(a, files, rss, k);
    SuffixKeeps(files, k, bound);
    AllBefore(s, now);
    SnocKeeps(a, files[k..], rss[k..], bound, now);
  }

  /** One more record in the last file. */
  lemma LastFileGrows(a: Aead, files: seq<LogFile>, rss: seq<seq<Record>>, r: Record, now: int)
    requires files != [] && Holds(a, files, rss)
    ensures var n := |files| - 1;
      Holds(a, files[n := LogFile(now, files[n].data + Frame(a, r))], rss[n := rss[n] + [r]])
  {
    var n := |files| - 1;
    FileJoin(a, rss[n], [r]);
    assert File(a, [r]) == Frame(a, r) + [];
  }

  lemma FlattenGrows(rss: seq<seq<Record>>, r: Record)
    requires rss != []
    ensures var n := |rss| - 1; Flatten(rss[n := rss[n] + [r]]) == Flatten(rss) + [r]
  {
    var n := |rss| - 1;
    assert rss == rss[..n] + [rss[n]];
    assert rss[n := rss[n] + [r]] == rss[..n] + [rss[n] + [r]];
    FlattenSnoc(rss[..n], rss[n]);
    FlattenSnoc(rss[..n], rss[n] + [r]);
  }

  /** Appending a frame to the active file, when it fits or the file is new. */
  lemma ExtendKeepsInv(a: Aead, policy: Policy, s: Store, last: int, largest: nat,
                       log: seq<Record>, dropped: seq<Record>, rss: seq<seq<Record>>, r: Record, now: int)
    returns (rss': seq<seq<Record>>)
    requires LogInv(a, policy, s, last, largest, log, dropped, rss) && last <= now
    requires |s.active.data| + |Frame(a, r)| <= policy.maxBytes || (s.active.data == [] && |Frame(a, r)| <= largest)
    ensures LogInv(a, policy, s.(active := LogFile(now, s.active.data + Frame(a, r))), now, largest,
                   log + [r], dropped, rss')
    ensures rss != [] && rss' == rss[|rss| - 1 := rss[|rss| - 1] + [r]]
  {
    var n := |s.rotated|;
    var files := Files(s);
    assert files[n] == s.active;
    rss' := rss[n := rss[n] + [r]];
    LastFileGrows(a, files, rss, r, now);
    FlattenGrows(rss, r);
    Regroup(dropped, Flatten(rss), [r]);
    var t := s.(active := LogFile(now, s.active.data + Frame(a, r)));
    assert Files(t) == files[n := t.active];
  }

  /**
    Every rotation was forced: a file and the first frame of the next one would together
    have passed the limit.
   */
  ghost predicate Forced(a: Aead, policy: Policy, rss: seq<seq<Record>>) {
    forall i :: 0 < i < |rss| ==> rss[i] != [] && |File(a, rss[i - 1])| + |Frame(a, rss[i][0])| > policy.maxBytes
  }

  lemma ForcedSuffix(a: Aead, policy: Policy, rss: seq<seq<Record>>, k: nat)
    requires Forced(a, policy, rss) && k <= |rss|
    ensures Forced(a, policy, rss[k..])
  {
  }

  lemma ForcedByExtension(a: Aead, policy: Policy, rss: seq<seq<Record>>, r: Record)
    requires Forced(a, policy, rss) && rss != []
    ensures Forced(a, policy, rss[|rss| - 1 := rss[|rss| - 1] + [r]])
  {
  }

  lemma ForcedByRotation(a: Aead, policy: Policy, rss: seq<seq<Record>>, k: nat, r: Record)
    requires Forced(a, policy, rss) && k <= |rss| && rss != []
    requires |File(a, rss[|rss| - 1])| + |Frame(a, r)| > policy.maxBytes
    ensures var q := rss[k..] + [[]]; Forced(a, policy, q[|q| - 1 := q[|q| - 1] + [r]])
  {
  }

  lemma AppendKeepsInv(a: Aead, policy: Policy, s: Store, last: int, largest: nat,
                       log: seq<Record>, dropped: seq<Record>, rss: seq<seq<Record>>, r: Record, now: int)
    returns (dropped': seq<Record>, rss': seq<seq<Record>>)
    requires LogInv(a, policy, s, last, largest, log, dropped, rss) && last < now
    requires |Frame(a, r)| <= largest && Forced(a, policy, rss)
    ensures LogInv(a, policy, Append(s, policy, Frame(a, r), now), now, largest, log + [r], dropped', rss')
    ensures Forced(a, policy, rss')
  {
    if |s.active.data| + |Frame(a, r)| > policy.maxBytes {
      var q, k;
      dropped', q, k := RotateKeepsInv(a, policy, s, last, largest, log, dropped, rss, now);
      assert Files(s)[|s.rotated|] == s.active;
      ForcedByRotation(a, policy, rss, k, r);
      rss' := ExtendKeepsInv(a, policy, Rotate(s, policy, now), now, largest, log, dropped', q, r, now);
    } else {
      dropped' := dropped;
      ForcedByExtension(a, policy, rss, r);
      rss' := ExtendKeepsInv(a, policy, s, last, largest, log, dropped, rss, r, now);
    }
  }

  ghost predicate LargestFrame(a: Aead, rs: seq<Record>, largest: nat) {
    forall i :: 0 <= i < |rs| ==> |Frame(a, rs[i])| <= largest
  }

  lemma EventKeepsInv(a: Aead, policy: Policy, l: Log, e: Event, last: int, largest: nat,
                      log: seq<Record>, dropped: seq<Record>, rss: seq<seq<Record>>)
    returns (dropped': seq<Record>, rss': seq<seq<Record>>)
    requires LogInv(a, policy, l.store, last, largest, log, dropped, rss) && last < e.now
    requires LargestFrame(a, Adds(l.counter, e), largest) && Forced(a, policy, rss)
    ensures LogInv(a, policy, Next(a, policy, l, e).store, e.now, largest, log + Adds(l.counter, e), dropped', rss')
    ensures Forced(a, policy, rss')
  {
    match e
    case Passed(now) =>
      var k;
      dropped', rss', k := JanitorKeepsInv(a, policy, l.store, last, largest, log, dropped, rss, now);
      ForcedSuffix(a, policy, rss, k);
      assert log + [] == log;
    case Reopened(now) =>
      dropped', rss' := dropped, rss;
      assert log + [] == log;
    case Wrote(p, now) =>
      var r := Record(l.counter, p);
      assert Adds(l.counter, e)[0] == r;
      dropped', rss' := AppendKeepsInv(a, policy, l.store, last, largest, log, dropped, rss, r, now);
  }

  lemma Regroup(x: seq<Record>, y: seq<Record>, z: seq<Record>)
    ensures (x + y) + z == x + (y + z)
  {
  }

  lemma LargestSplits(a: Aead, xs: seq<Record>, ys: seq<Record>, largest: nat)
    requires LargestFrame(a, xs + ys, largest)
    ensures LargestFrame(a, xs, largest) && LargestFrame(a, ys, largest)
  {
    assert forall i :: 0 <= i < |xs| ==> xs[i] == (xs + ys)[i];
    assert forall i :: 0 <= i < |ys| ==> ys[i] == (xs + ys)[|xs| + i];
  }

  lemma {:induction false} RunKeepsInv(a: Aead, policy: Policy, l: Log, es: seq<Event>, last: int, largest: nat,
                                       log: seq<Record>, dropped: seq<Record>, rss: seq<seq<Record>>)
    returns (last': int, dropped': seq<Record>, rss': seq<seq<Record>>)
    requires LogInv(a, policy, l.store, last, largest, log, dropped, rss) && Forced(a, policy, rss)
    requires Ticking(es, last) && LargestFrame(a, Written(l.counter, es), largest)
    ensures LogInv(a, policy, Play(a, policy, l, es).store, last', largest, log + Written(l.counter, es),
                   dropped', rss')
    ensures Forced(a, policy, rss')
    decreases |es|
  {
    if es == [] {
      assert log + [] == log;
      last', dropped', rss' := last, dropped, rss;
    } else {
      var m, added := Next(a, policy, l, es[0]), Adds(l.counter, es[0]);
      var rest := Written(m.counter, es[1..]);
      LargestSplits(a, added, rest, largest);
      var d, q := EventKeepsInv(a, policy, l, es[0], last, largest, log, dropped, rss);
      last', dropped', rss' := RunKeepsInv(a, policy, m, es[1..], es[0].now, largest, log + added, d, q);
      Regroup(log, added, rest);
    }
  }

  /** The decoded files one after the other, oldest first. */
  function DecodeAll(a: Aead, files: seq<LogFile>): seq<Byte> {
    if files == [] then [] else DecodeAll(a, files[..|files| - 1]) + Decode(a, files[|files| - 1].data)
  }

  ghost predicate AllFit(a: Aead, rs: seq<Record>) { forall i :: 0 <= i < |rs| ==> Fits(a, rs[i]) }

  lemma FitsSplits(a: Aead, xs: seq<Record>, ys: seq<Record>)
    requires AllFit(a, xs + ys)
    ensures AllFit(a, xs) && AllFit(a, ys)
  {
    assert forall i :: 0 <= i < |xs| ==> xs[i] == (xs + ys)[i];
    assert forall i :: 0 <= i < |ys| ==> ys[i] == (xs + ys)[|xs| + i];
  }

  lemma {:induction false} DecodeAllIsPlain(a: Aead, files: seq<LogFile>, rss: seq<seq<Record>>)
    requires Opens(a) && Holds(a, files, rss)
    requires AllFit(a, Flatten(rss))
    ensures DecodeAll(a, files) == Plain(Flatten(rss))
  {
    if files != [] {
      var n := |files| - 1;
      var init, rs := Flatten(rss[..n]), rss[n];
      FitsSplits(a, init, rs);
      DecodeAllIsPlain(a, files[..n], rss[..n]);
      DecodeComplete(a, rs);
      FileJoin(a, init, rs);
    }
  }

  /**
    After any run of writes, retention passes and restarts on a log that starts empty: every
    file but the first begins with a frame that did not fit behind the one before, every file
    holds whole frames, the rotated files in age order and then the active one decode to a
    suffix of everything that was written, at most MaxBackups rotated files are left, and no
    file is larger than MaxBytes or the largest frame.
   */
  lemma SurvivingLogIsSuffix(a: Aead, policy: Policy, es: seq<Event>, start: int, largest: nat)
    returns (dropped: seq<Record>, kept: seq<Record>)
    requires Opens(a) && Ticking(es, start)
    requires LargestFrame(a, Written(0, es), largest)
    requires AllFit(a, Written(0, es))
    ensures var s := Play(a, policy, Log(Store([], LogFile(start, [])), 0), es).store;
      && Plain(dropped + kept) == Texts(es)
      && Written(0, es) == dropped + kept
      && DecodeAll(a, Files(s)) == Plain(kept)
      && (exists rss :: Holds(a, Files(s), rss) && Flatten(rss) == kept && Forced(a, policy, rss))
      && Increasing(Files(s))
      && |s.rotated| <= Max(policy.maxBackups, 0)
      && Bounded(Files(s), Max(policy.maxBytes, largest))
  {
    var l := Log(Store([], LogFile(start, [])), 0);
    var none: seq<Record> := [];
    var first := [none];
    assert first[..0] == [];
    assert Flatten(first) == [];
    var last, d, rss := RunKeepsInv(a, policy, l, es, start, largest, [], [], first);
    assert [] + Written(0, es) == Written(0, es);
    dropped, kept := d, Flatten(rss);
    WrittenIsTexts(0, es);
    FitsSplits(a, dropped, kept);
    DecodeAllIsPlain(a, Files(Play(a, policy, l, es).store), rss);
  }

  // ---------- writes that fit ----------

  /** A write that fits leaves the rotated files alone; one that does not starts a new file. */
  lemma AppendExact(s: Store, policy: Policy, p: seq<Byte>, now: int)
    ensures var t := Append(s, policy, p, now);
      && t.active.time == now
      && (|s.active.data| + |p| <= policy.maxBytes ==> t.rotated == s.rotated && t.active.data == s.active.data + p)
      && (|s.active.data| + |p| > policy.maxBytes ==>
            t.rotated == Enforce(s.rotated + [s.active], policy, now) && t.active.data == p)
  {
  }

  lemma FittingEvent(a: Aead, policy: Policy, l: Log, e: Event)
    requires l.store.rotated == [] && |l.store.active.data| + |File(a, Adds(l.counter, e))| <= policy.maxBytes
    ensures var t := Next(a, policy, l, e);
      && t.store.rotated == [] && t.store.active.data == l.store.active.data + File(a, Adds(l.counter, e))
      && t.counter == NextCounter(l.counter, e)
  {
    if e.Wrote? {
      assert File(a, Adds(l.counter, e)) == Frame(a, Record(l.counter, e.plain)) + [];
    }
  }

  lemma JoinBytes(x: seq<Byte>, y: seq<Byte>, z: seq<Byte>)
    ensures (x + y) + z == x + (y + z)
  {
  }

  /** What a run writes fits into the active file: nothing is rotated and nothing is dropped. */
  lemma {:induction false} FittingRunKeepsAll(a: Aead, policy: Policy, l: Log, es: seq<Event>)
    requires l.store.rotated == []
    requires |l.store.active.data| + |File(a, Written(l.counter, es))| <= policy.maxBytes
    ensures var s := Play(a, policy, l, es).store;
      s.rotated == [] && s.active.data == l.store.active.data + File(a, Written(l.counter, es))
    decreases |es|
  {
    if es != [] {
      var added, rest := Adds(l.counter, es[0]), Written(NextCounter(l.counter, es[0]), es[1..]);
      FileJoin(a, added, rest);
      FittingEvent(a, policy, l, es[0]);
      FittingRunKeepsAll(a, policy, Next(a, policy, l, es[0]), es[1..]);
      JoinBytes(l.store.active.data, File(a, added), File(a, rest));
    }
  }
}

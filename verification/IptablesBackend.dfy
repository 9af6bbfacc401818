/**
  The iptables backend of the transaction pipeline.  The kernel's rule sets are the texts
  that iptables-save and ip6tables-save print; what an external command answers, and what a
  failing one leaves behind, is a parameter of the call that runs it.
 */
module IptablesBackend {
  import opened Basics

  datatype Firewall = Firewall(v4: string, v6: string)

  /** An empty text means that the save command failed, was missing, or printed nothing. */
  datatype Snapshot = Snapshot(id: nat, v4: string, v6: string)

  /** One action of a transaction: its rule is refused, or its command runs and leaves a rule set. */
  datatype ActionRun = Refused | Ran(ok: bool, after: string)

  datatype Applied = Applied(text: string, count: nat, ok: bool)

  /** The actions run one by one until one fails; the effect of those before it stays. */
  function RunActions(text: string, runs: seq<ActionRun>): (r: Applied)
    ensures r.ok <==> r.count == |runs|
    ensures r.count <= |runs|
    decreases |runs|
  {
    if runs == [] then Applied(text, 0, true)
    else
      match runs[0]
      case Refused => Applied(text, 0, false)
      case Ran(false, after) => Applied(after, 0, false)
      case Ran(true, after) =>
        var rest := RunActions(after, runs[1..]);
        rest.(count := rest.count + 1)
  }

  /** The action's command ran and succeeded. */
  predicate Succeeded(r: ActionRun) { r.Ran? && r.ok }

  /**
    Applying succeeds exactly when every action does.  Otherwise the count is the place of
    the first action that does not, and the rule set is what that one left if it ran, or
    what the last one before it left.
   */
  lemma {:induction false} RunActionsExact(text: string, runs: seq<ActionRun>)
    ensures var r := RunActions(text, runs);
      && (r.ok <==> forall i :: 0 <= i < |runs| ==> Succeeded(runs[i]))
      && (forall i :: 0 <= i < r.count ==> Succeeded(runs[i]))
      && (r.count < |runs| ==> !Succeeded(runs[r.count]))
      && r.text == (if r.count < |runs| && runs[r.count].Ran? then runs[r.count].after
                    else if r.count > 0 then runs[r.count - 1].after else text)
    decreases |runs|
  {
    if runs != [] && Succeeded(runs[0]) {
      RunActionsExact(runs[0].after, runs[1..]);
      assert forall i :: 0 < i < |runs| ==> runs[i] == runs[1..][i - 1];
    }
  }

  /** A restore command succeeds and loads its input, or fails and leaves some rule set. */
  datatype RestoreRun = Loaded | Broken(after: string)

  /** Restore: only non-empty texts are loaded, and the IPv6 one only if the tool is there. */
  function Reinstate(f: Firewall, s: Snapshot, has6: bool, run4: RestoreRun, run6: RestoreRun): (Firewall, bool) {
    if s.v4 != "" && run4.Broken? then (f.(v4 := run4.after), false)
    else
      var g := if s.v4 != "" then f.(v4 := s.v4) else f;
      if s.v6 == "" || !has6 then (g, true)
      else if run6.Broken? then (g.(v6 := run6.after), false)
      else (g.(v6 := s.v6), true)
  }

  /** Which of the two texts are loaded, and what a failing restore leaves. */
  lemma ReinstateExact(f: Firewall, s: Snapshot, has6: bool, run4: RestoreRun, run6: RestoreRun)
    ensures var (g, ok) := Reinstate(f, s, has6, run4, run6);
      var wants4, wants6 := s.v4 != "", s.v6 != "" && has6;
      && (ok <==> (wants4 ==> run4.Loaded?) && (wants6 ==> run6.Loaded?))
      && g.v4 == (if !wants4 then f.v4 else if run4.Loaded? then s.v4 else run4.after)
      && g.v6 == (if !wants6 || (wants4 && run4.Broken?) then f.v6 else if run6.Loaded? then s.v6 else run6.after)
  {
  }

  class Backend {
    var state: Firewall
    const has6: bool

    constructor (state: Firewall, has6: bool)
      ensures this.state == state && this.has6 == has6
    {
      this.state, this.has6 := state, has6;
    }

    /** A failing save command leaves its text empty, and is not reported. */
    method TakeSnapshot(id: nat, saved4: bool, saved6: bool) returns (s: Snapshot)
      ensures s == Snapshot(id, if saved4 then state.v4 else "", if saved6 then state.v6 else "")
    {
      s := Snapshot(id, "", "");
      if saved4 {
        s := s.(v4 := state.v4);
      }
      if saved6 {
        s := s.(v6 := state.v6);
      }
    }

    /** Apply: the loop over the actions, then the hash of what a save prints. */
    method Apply(runs: seq<ActionRun>, saved: bool) returns (applied: nat, ok: bool, hash: Digest)
      modifies this`state
      ensures state == old(state).(v4 := RunActions(old(state.v4), runs).text)
      ensures applied == RunActions(old(state.v4), runs).count
      ensures ok == RunActions(old(state.v4), runs).ok
      ensures ok ==> hash == Sha256(if saved then state.v4 else "")
    {
      applied, hash := 0, Sha256("");
      var i := 0;
      while i < |runs|
        invariant 0 <= i <= |runs|
        invariant applied == i
        invariant state.v6 == old(state.v6)
        invariant RunActions(old(state.v4), runs).text == RunActions(state.v4, runs[i..]).text
        invariant RunActions(old(state.v4), runs).count == RunActions(state.v4, runs[i..]).count + i
      {
        assert runs[i..][0] == runs[i] && runs[i..][1..] == runs[i + 1..];
        match runs[i] {
          case Refused =>
            return applied, false, hash;
          case Ran(ran, after) =>
            state := state.(v4 := after);
            if !ran {
              return applied, false, hash;
            }
        }
        applied := applied + 1;
        i := i + 1;
      }
      ok := true;
      hash := Sha256(if saved then state.v4 else "");
    }

    /** Verify: None when the save fails, otherwise whether the hashes agree. */
    method Verify(expected: Digest, saved: bool) returns (matches: Option<bool>)
      ensures matches == if saved then Some(Sha256(state.v4) == expected) else None
    {
      matches := if saved then Some(Sha256(state.v4) == expected) else None;
    }

    method Restore(s: Snapshot, run4: RestoreRun, run6: RestoreRun) returns (ok: bool)
      modifies this`state
      ensures (state, ok) == Reinstate(old(state), s, has6, run4, run6)
    {
      if s.v4 != "" {
        match run4
        case Broken(after) =>
          state := state.(v4 := after);
          return false;
        case Loaded =>
          state := state.(v4 := s.v4);
      }
      if s.v6 != "" && has6 {
        match run6
        case Broken(after) =>
          state := state.(v6 := after);
          return false;
        case Loaded =>
          state := state.(v6 := s.v6);
      }
      ok := true;
    }
  }
}

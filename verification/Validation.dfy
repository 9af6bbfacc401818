/** Structural validation of rules, and the validation of whole transactions. */
module Validation {
  import opened Basics
  import opened Addresses
  import opened Rules
  import opened Conflicts
  import Text

  // ---------- one rule ----------

  predicate FamilyFits(f: Family, v6: bool) {
    match f
    case IPv4 => !v6
    case IPv6 => v6
    case _ => true
  }

  /** validateAddr reports nothing. */
  predicate AddrTextOk(net: Net, s: string, f: Family) {
    if '/' in s then net.parseCidr(s).Some? && FamilyFits(f, net.parseCidr(s).value.ip.v6)
    else net.parseIp(s).Some? && FamilyFits(f, net.parseIp(s).value.v6)
  }

  predicate AddrFieldOk(net: Net, s: string, f: Family) {
    s == "" || s == "any" || AddrTextOk(net, s, f)
  }

  predicate InterfaceChar(c: char) {
    c == '.' || c == '-' || c == '@' || c == ':'
    || 'a' <= c <= 'z' || 'A' <= c <= 'Z' || '0' <= c <= '9'
  }

  predicate InterfaceOk(s: string) {
    |s| <= 15 && forall i :: 0 <= i < |s| ==> InterfaceChar(s[i])
  }

  /** net.IP.IsLoopback. */
  predicate IsLoopback(x: Ip)
    requires IpOk(x)
  {
    if x.v6 then x.bits == seq(127, i => false) + [true]
    else x.bits[..8] == [false, true, true, true, true, true, true, true]
  }

  /** isLoopbackSpec. */
  predicate LoopbackSpec(net: Net, s: string)
    requires NetOk(net)
  {
    if s == "" || s == "any" then false
    else if "127." <= s || s == "::1" || s == "lo" then true
    else
      var ip := net.parseIp(Text.Split(s, '/')[0]);
      ip.Some? && IsLoopback(ip.value)
  }

  predicate BlocksLoopback(net: Net, r: Rule)
    requires NetOk(net)
  {
    && r.direction == In && r.action != Allow && r.action != Log
    && (LoopbackSpec(net, r.source) || LoopbackSpec(net, r.destination))
  }

  /** Everything that validation demands of a rule. */
  predicate RuleOk(net: Net, r: Rule)
    requires NetOk(net)
  {
    && !r.family.OtherFamily? && !r.direction.OtherDirection?
    && !r.action.OtherAction? && !r.protocol.OtherProto?
    && AddrFieldOk(net, r.source, r.family) && AddrFieldOk(net, r.destination, r.family)
    && Text.PortFieldOk(r.sourcePort) && Text.PortFieldOk(r.destinationPort)
    && (r.protocol == Icmp ==> r.sourcePort == "" && r.destinationPort == "")
    && InterfaceOk(r.interfaceIn) && InterfaceOk(r.interfaceOut)
    && !BlocksLoopback(net, r)
  }

  // ---------- what the demands mean ----------

  /** The number that a string of bits writes. */
  function BitsValue(bits: seq<bool>): nat {
    if bits == [] then 0 else 2 * BitsValue(bits[..|bits| - 1]) + (if bits[|bits| - 1] then 1 else 0)
  }

  lemma {:induction false} ZeroBits(bits: seq<bool>)
    ensures BitsValue(bits) == 0 <==> bits == seq(|bits|, i => false)
  {
    if bits != [] {
      var init := bits[..|bits| - 1];
      ZeroBits(init);
      assert bits == init + [bits[|bits| - 1]];
      assert seq(|bits|, i => false) == seq(|init|, i => false) + [false];
    }
  }

  /** The loopback addresses are those of 127.0.0.0/8, and ::1. */
  lemma LoopbackExact(x: Ip)
    requires IpOk(x)
    ensures IsLoopback(x) <==> if x.v6 then BitsValue(x.bits) == 1 else BitsValue(x.bits[..8]) == 127
  {
    if x.v6 {
      var init := x.bits[..127];
      ZeroBits(init);
      assert x.bits == init + [x.bits[127]];
      assert seq(127, i => false) == seq(|init|, i => false);
    } else {
      EightBits(x.bits[..8]);
    }
  }

  lemma EightBits(b: seq<bool>)
    requires |b| == 8
    ensures BitsValue(b) == 127 <==> b == [false, true, true, true, true, true, true, true]
  {
    assert forall k :: 0 < k <= 8 ==> b[..k][..k - 1] == b[..k - 1];
    assert b[..8] == b && b[..0] == [];
    BitsStep(b, 7); BitsStep(b, 6); BitsStep(b, 5); BitsStep(b, 4);
    BitsStep(b, 3); BitsStep(b, 2); BitsStep(b, 1); BitsStep(b, 0);
  }

  lemma BitsStep(b: seq<bool>, k: nat)
    requires k < |b|
    ensures BitsValue(b[..k + 1]) == 2 * BitsValue(b[..k]) + (if b[k] then 1 else 0)
    ensures BitsValue(b[..0]) == 0
  {
    assert b[..k + 1][..k] == b[..k];
  }

  /** An address field is valid when it is empty or any, or denotes a block of a family that the rule has. */
  lemma AddrFieldExact(net: Net, s: string, f: Family)
    requires NetOk(net) && f in {IPv4, IPv6, Both}
    ensures AddrFieldOk(net, s, f) <==>
      s in {"", "any"} || (Denotes(net, s).Block? && FamilyMatches(f, Denotes(net, s).cidr.ip.v6))
  {
  }

  /** What counts as loopback: the prefix 127., ::1, lo, and texts whose address before a slash is loopback. */
  lemma LoopbackTexts(net: Net, host: string, rest: string)
    requires NetOk(net) && '/' !in host && host !in {"", "any"}
    ensures LoopbackSpec(net, host) <==>
      "127." <= host || host in {"::1", "lo"} || (net.parseIp(host).Some? && IsLoopback(net.parseIp(host).value))
    ensures LoopbackSpec(net, host + "/" + rest) <==>
      "127." <= host || (net.parseIp(host).Some? && IsLoopback(net.parseIp(host).value))
    ensures !LoopbackSpec(net, "") && !LoopbackSpec(net, "any")
  {
    Text.SplitPlain(host, '/');
    Text.SplitHead(host, rest, '/');
    var s := host + "/" + rest;
    assert s == host + ['/'] + rest && s[|host|] == '/';
    assert "127." <= s <==> "127." <= host by { PrefixBeforeSlash(host, rest); }
    assert '/' !in "::1" && '/' !in "lo" && '/' !in "any" && '/' !in "";
  }

  lemma PrefixBeforeSlash(host: string, rest: string)
    ensures "127." <= host + "/" + rest <==> "127." <= host
  {
    var s := host + "/" + rest;
    assert s[|host|] == '/';
    assert forall i :: 0 <= i < |host| ==> s[i] == host[i];
    if "127." <= s {
      assert forall i :: 0 <= i < 4 ==> s[i] == "127."[i] && s[i] != '/';
    }
  }

  /** An interface name has up to 15 letters, digits, and dots, dashes, at signs and colons. */
  lemma ValidName(s: string)
    ensures InterfaceOk(s) <==> |s| <= 15 && forall c :: c in s ==>
      c in {'.', '-', '@', ':'} || '0' <= c <= '9' || 'A' <= c <= 'Z' || 'a' <= c <= 'z'
  {
    assert forall i :: 0 <= i < |s| ==> s[i] in s;
  }

  /** What validation accepts, in terms of what the fields denote. */
  lemma ValidRuleMeans(net: Net, r: Rule)
    requires NetOk(net)
    ensures RuleOk(net, r) <==>
      && r.family in {IPv4, IPv6, Both} && r.direction in {In, Out, Forward}
      && r.action in {Allow, Deny, Reject, Drop, Log} && r.protocol in {AnyProto, Tcp, Udp, Icmp, Custom}
      && (r.source in {"", "any"}
          || (Denotes(net, r.source).Block? && FamilyMatches(r.family, Denotes(net, r.source).cidr.ip.v6)))
      && (r.destination in {"", "any"}
          || (Denotes(net, r.destination).Block? && FamilyMatches(r.family, Denotes(net, r.destination).cidr.ip.v6)))
      && (r.sourcePort == "" || Text.GoodRange(Text.ParseRange(r.sourcePort)))
      && (r.destinationPort == "" || Text.GoodRange(Text.ParseRange(r.destinationPort)))
      && (r.protocol == Icmp ==> r.sourcePort == "" == r.destinationPort)
      && InterfaceOk(r.interfaceIn) && InterfaceOk(r.interfaceOut)
      && (r.direction == In && r.action in {Deny, Reject, Drop} ==>
            !LoopbackSpec(net, r.source) && !LoopbackSpec(net, r.destination))
  {
    if r.family in {IPv4, IPv6, Both} {
      AddrFieldExact(net, r.source, r.family);
      AddrFieldExact(net, r.destination, r.family);
    }
    ValidPortField(r.sourcePort);
    ValidPortField(r.destinationPort);
  }

  lemma ValidPortField(p: string)
    ensures Text.PortFieldOk(p) <==> p == "" || Text.GoodRange(Text.ParseRange(p))
  {
    if p != "" { Text.ValidPortsParse(p); }
  }

  method InterfaceErrors(name: string, val: string) returns (errs: seq<string>)
    ensures errs == [] <==> InterfaceOk(val)
  {
    errs := [];
    if val == "" {
      return;
    }
    if |val| > 15 {
      errs := errs + [name + " exceeds IFNAMSIZ"];
    }
    var i := 0;
    while i < |val|
      invariant 0 <= i <= |val|
      invariant forall k :: 0 <= k < i ==> InterfaceChar(val[k])
      invariant errs == [] <==> |val| <= 15
    {
      if !InterfaceChar(val[i]) {
        errs := errs + [name + " has an invalid character"];
        break;
      }
      i := i + 1;
    }
  }

  /** The four enumerations of a rule hold known values. */
  method EnumErrors(r: Rule) returns (errs: seq<string>)
    ensures errs == [] <==>
      !r.family.OtherFamily? && !r.direction.OtherDirection? && !r.action.OtherAction? && !r.protocol.OtherProto?
  {
    errs := [];
    match r.family { case OtherFamily(_) => errs := errs + ["invalid family"]; case _ => }
    match r.direction { case OtherDirection(_) => errs := errs + ["invalid direction"]; case _ => }
    match r.action { case OtherAction(_) => errs := errs + ["invalid action"]; case _ => }
    match r.protocol { case OtherProto(_) => errs := errs + ["invalid protocol"]; case _ => }
  }

  method FieldErrors(net: Net, r: Rule) returns (errs: seq<string>)
    ensures errs == [] <==>
      && AddrFieldOk(net, r.source, r.family) && AddrFieldOk(net, r.destination, r.family)
      && Text.PortFieldOk(r.sourcePort) && Text.PortFieldOk(r.destinationPort)
  {
    errs := [];
    if r.source != "" && r.source != "any" {
      if !AddrTextOk(net, r.source, r.family) {
        errs := errs + ["source"];
      }
    }
    if r.destination != "" && r.destination != "any" {
      if !AddrTextOk(net, r.destination, r.family) {
        errs := errs + ["destination"];
      }
    }
    if !Text.PortFieldOk(r.sourcePort) {
      errs := errs + ["source_port"];
    }
    if !Text.PortFieldOk(r.destinationPort) {
      errs := errs + ["destination_port"];
    }
  }

  method ValidateRule(net: Net, r: Rule) returns (errs: seq<string>)
    requires NetOk(net)
    ensures errs == [] <==> RuleOk(net, r)
  {
    errs := EnumErrors(r);
    var fieldErrs := FieldErrors(net, r);
    errs := errs + fieldErrs;
    if (r.sourcePort != "" || r.destinationPort != "")
       && r.protocol != AnyProto && r.protocol != Tcp && r.protocol != Udp && r.protocol != Custom {
      errs := errs + ["ports set but protocol does not use ports"];
    }
    var inErrs := InterfaceErrors("interface_in", r.interfaceIn);
    var outErrs := InterfaceErrors("interface_out", r.interfaceOut);
    errs := errs + inErrs + outErrs;
    if r.direction == In && r.action != Allow && r.action != Log {
      if LoopbackSpec(net, r.source) || LoopbackSpec(net, r.destination) {
        errs := errs + ["blocking rule on loopback"];
      }
    }
  }

  // ---------- transactions ----------

  datatype TxnAction = TxnAction(op: string, rule: Option<Rule>, ruleId: string)

  predicate Replaces(op: string) { op == "update" || op == "enable" || op == "disable" }

  /** The action's rule is checked against rules that it joins. */
  predicate Joins(op: string) { op == "add" || Replaces(op) }

  /** An action with this rule id and rule stands for the current rule. */
  predicate StandsFor(ruleId: string, id: string, r: Rule) { (ruleId != "" && r.id == ruleId) || r.id == id }

  /** The current rules other than those that an update stands for. */
  function Others(current: seq<Rule>, ruleId: string, id: string): seq<Rule> {
    if current == [] then []
    else
      var n := |current| - 1;
      Others(current[..n], ruleId, id) + (if StandsFor(ruleId, id, current[n]) then [] else [current[n]])
  }

  lemma {:induction false} OthersStay(current: seq<Rule>, ruleId: string, id: string)
    ensures forall r :: r in Others(current, ruleId, id) <==> r in current && !StandsFor(ruleId, id, r)
  {
    if current != [] {
      var n := |current| - 1;
      assert current == current[..n] + [current[n]];
      OthersStay(current[..n], ruleId, id);
    }
  }

  /** The rules that the rule of an action joins. */
  function Joined(a: TxnAction, current: seq<Rule>): seq<Rule>
    requires a.rule.Some?
  {
    if a.op == "add" then current else Others(current, a.ruleId, a.rule.value.id)
  }

  /** The conflicts that one action contributes. */
  function ActionConflicts(net: Net, a: TxnAction, current: seq<Rule>): seq<Conflict>
    requires NetOk(net)
  {
    if a.rule.None? || !Joins(a.op) then [] else Analyze(net, Joined(a, current), a.rule)
  }

  /** Which analysis an action asks for: added rules join all, changed ones all but what they replace. */
  lemma ActionConflictsExact(net: Net, a: TxnAction, current: seq<Rule>, others: seq<Rule>)
    requires NetOk(net) && a.rule.Some?
    requires others == Others(current, a.ruleId, a.rule.value.id)
    ensures ActionConflicts(net, a, current) ==
      if a.op == "add" then Analyze(net, current, a.rule)
      else if a.op in {"update", "enable", "disable"} then Analyze(net, others, a.rule)
      else []
    ensures forall r :: r in others <==>
      r in current && r.id != a.rule.value.id && (a.ruleId == "" || r.id != a.ruleId)
  {
    OthersStay(current, a.ruleId, a.rule.value.id);
  }

  function TxConflicts(net: Net, actions: seq<TxnAction>, current: seq<Rule>): seq<Conflict>
    requires NetOk(net)
  {
    if actions == [] then []
    else
      var n := |actions| - 1;
      TxConflicts(net, actions[..n], current) + ActionConflicts(net, actions[n], current)
  }

  predicate WellFormed(net: Net, a: TxnAction)
    requires NetOk(net)
  {
    match a.rule
    case None => a.op == "delete" || a.op == "set_policy"
    case Some(r) => RuleOk(net, r)
  }

  predicate AllWellFormed(net: Net, actions: seq<TxnAction>)
    requires NetOk(net)
  {
    actions == [] || (AllWellFormed(net, actions[..|actions| - 1]) && WellFormed(net, actions[|actions| - 1]))
  }

  /** An action is acceptable: well-formed, and its rule locks nothing out of what it joins. */
  predicate ActionOk(net: Net, a: TxnAction, current: seq<Rule>)
    requires NetOk(net)
  {
    && WellFormed(net, a)
    && (a.rule.Some? && Joins(a.op) ==> Lockouts(net, Joined(a, current), a.rule.value) == [])
  }

  /** When an action is acceptable: without a rule only two operations are, with one it must lock nothing out. */
  lemma ActionOkExact(net: Net, a: TxnAction, current: seq<Rule>)
    requires NetOk(net)
    ensures a.rule.None? ==> (ActionOk(net, a, current) <==> a.op in {"delete", "set_policy"})
    ensures a.rule.Some? ==>
      (ActionOk(net, a, current) <==>
        RuleOk(net, a.rule.value)
        && (a.op == "add" ==> Lockouts(net, current, a.rule.value) == [])
        && (a.op in {"update", "enable", "disable"} ==>
              Lockouts(net, Others(current, a.ruleId, a.rule.value.id), a.rule.value) == []))
  {
  }

  predicate Critical(cs: seq<Conflict>) {
    exists i :: 0 <= i < |cs| && cs[i].severity == "CRITICAL"
  }

  ghost predicate AllProper(cs: seq<Conflict>) {
    forall i :: 0 <= i < |cs| ==> Proper(cs[i])
  }

  /** Deduplication neither hides nor invents a critical conflict. */
  lemma DedupeKeepsCritical(cs: seq<Conflict>)
    requires AllProper(cs)
    ensures AllProper(Dedupe(cs))
    ensures Critical(Dedupe(cs)) <==> Critical(cs)
  {
    DedupeKeepsKeys(cs);
    var ds := Dedupe(cs);
    forall i | 0 <= i < |ds| ensures Proper(ds[i]) {
      assert ds[i] in cs;
    }
    if Critical(cs) {
      var i :| 0 <= i < |cs| && cs[i].severity == "CRITICAL";
      assert HasKey(ds, Key(cs[i]));
      var j :| 0 <= j < |ds| && Key(ds[j]) == Key(cs[i]);
      KeyGivesCode(ds[j], cs[i]);
      assert ds[j].severity == "CRITICAL";
    }
    if Critical(ds) {
      var i :| 0 <= i < |ds| && ds[i].severity == "CRITICAL";
      assert ds[i] in cs;
    }
  }

  /** A test that reports nothing critical. */
  ghost predicate Mild(test: Test) {
    Total(test) && forall a, b :: AllProper(test(a, b)) && !Critical(test(a, b))
  }

  lemma PairTestIsMild(net: Net)
    requires NetOk(net)
    ensures Mild(PairTest(net))
  {
  }

  lemma {:induction false} RowsAreMild(test: Test, o: seq<Rule>, i: nat)
    requires Mild(test) && i <= |o|
    ensures AllProper(Rows(test, o, i)) && !Critical(Rows(test, o, i))
  {
    if i > 0 {
      RowsAreMild(test, o, i - 1);
      RowIsMild(test, o, i - 1, |o|);
    }
  }

  lemma {:induction false} RowIsMild(test: Test, o: seq<Rule>, i: nat, j: nat)
    requires Mild(test) && i < j <= |o|
    ensures AllProper(Row(test, o, i, j)) && !Critical(Row(test, o, i, j))
    decreases j
  {
    if j > i + 1 { RowIsMild(test, o, i, j - 1); }
  }

  lemma SshRisksAreCritical(existing: seq<Rule>, r: Rule)
    ensures AllProper(SshRisks(existing, r))
    ensures SshRisks(existing, r) != [] <==> exists k :: 0 <= k < |existing| && Risks(r, existing[k])
    ensures SshRisks(existing, r) != [] <==> Critical(SshRisks(existing, r))
  {
    var cs := SshRisks(existing, r);
    SshRisksAreProper(existing, r);
    forall i | 0 <= i < |cs| ensures Proper(cs[i]) {
      assert cs[i] in cs;
    }
    if cs != [] {
      SshRisksExact(existing, r, cs[0]);
      assert cs[0] in cs;
      assert cs[0].severity == "CRITICAL";
    }
    if k :| 0 <= k < |existing| && Risks(r, existing[k]) {
      SshRisksExact(existing, r, Conflict(SSH, "CRITICAL", [r.id, existing[k].id]));
    }
  }

  /** The analysis reports a critical conflict exactly when a lockout check fires. */
  lemma CriticalMeansLockout(net: Net, existing: seq<Rule>, r: Rule)
    requires NetOk(net)
    ensures AllProper(Analyze(net, existing, Some(r)))
    ensures Critical(Analyze(net, existing, Some(r))) <==> Lockouts(net, existing, r) != []
  {
    var o := Order(existing + [r]);
    var mild, lock := Rows(PairTest(net), o, |o|), Lockouts(net, existing, r);
    PairTestIsMild(net);
    RowsAreMild(PairTest(net), o, |o|);
    SshRisksAreCritical(existing, r);
    LockoutsAreCritical(net, existing, r);
    CriticalJoin(mild, lock);
    DedupeKeepsCritical(mild + lock);
  }

  lemma CriticalJoin(xs: seq<Conflict>, ys: seq<Conflict>)
    ensures Critical(xs + ys) <==> Critical(xs) || Critical(ys)
    ensures AllProper(xs) && AllProper(ys) ==> AllProper(xs + ys)
  {
    if i :| 0 <= i < |xs| && xs[i].severity == "CRITICAL" { assert (xs + ys)[i] == xs[i]; }
    if i :| 0 <= i < |ys| && ys[i].severity == "CRITICAL" { assert (xs + ys)[|xs| + i] == ys[i]; }
  }

  lemma LockoutsAreCritical(net: Net, existing: seq<Rule>, r: Rule)
    requires NetOk(net)
    ensures AllProper(Lockouts(net, existing, r))
    ensures Critical(Lockouts(net, existing, r)) <==> Lockouts(net, existing, r) != []
  {
    SshRisksAreCritical(existing, r);
    var first := if CoversLoopback(net, r) then [Conflict(MANAGEMENT, "CRITICAL", [r.id])] else [];
    assert first != [] ==> first[0].severity == "CRITICAL";
    CriticalJoin(first, SshRisks(existing, r));
  }

  method OtherRules(current: seq<Rule>, ruleId: string, id: string) returns (without: seq<Rule>)
    ensures without == Others(current, ruleId, id)
  {
    without := [];
    var i := 0;
    while i < |current|
      invariant 0 <= i <= |current|
      invariant without == Others(current[..i], ruleId, id)
    {
      assert current[..i + 1][..i] == current[..i];
      if ruleId != "" && current[i].id == ruleId {
      } else if current[i].id == id {
      } else {
        without := without + [current[i]];
      }
      i := i + 1;
    }
    assert current[..i] == current;
  }

  /** The errors and conflicts of one action. */
  method CheckAction(net: Net, a: TxnAction, current: seq<Rule>)
    returns (errs: seq<string>, conflicts: seq<Conflict>)
    requires NetOk(net)
    ensures errs == [] <==> WellFormed(net, a)
    ensures conflicts == ActionConflicts(net, a, current)
  {
    errs, conflicts := [], [];
    if a.rule.None? {
      if a.op != "delete" && a.op != "set_policy" {
        errs := ["action requires a rule"];
      }
      return;
    }
    errs := ValidateRule(net, a.rule.value);
    if a.op == "add" {
      conflicts := AnalyzeConflicts(net, current, a.rule);
    } else if a.op == "update" || a.op == "enable" || a.op == "disable" {
      var without := OtherRules(current, a.ruleId, a.rule.value.id);
      conflicts := AnalyzeConflicts(net, without, a.rule);
    }
  }

  /** The conflicts of an action are critical exactly when its rule locks something out. */
  lemma ActionCritical(net: Net, a: TxnAction, current: seq<Rule>)
    requires NetOk(net)
    ensures AllProper(ActionConflicts(net, a, current))
    ensures ActionOk(net, a, current) <==> WellFormed(net, a) && !Critical(ActionConflicts(net, a, current))
  {
    if a.rule.Some? && Joins(a.op) {
      CriticalMeansLockout(net, Joined(a, current), a.rule.value);
    }
  }

  predicate AllOk(net: Net, actions: seq<TxnAction>, current: seq<Rule>)
    requires NetOk(net)
  {
    actions == []
    || (AllOk(net, actions[..|actions| - 1], current) && ActionOk(net, actions[|actions| - 1], current))
  }

  /** The actions are acceptable exactly when they are well-formed and none of their conflicts is critical. */
  lemma {:induction false} TxAcceptable(net: Net, actions: seq<TxnAction>, current: seq<Rule>)
    requires NetOk(net)
    ensures AllProper(TxConflicts(net, actions, current))
    ensures AllOk(net, actions, current) <==>
      AllWellFormed(net, actions) && !Critical(TxConflicts(net, actions, current))
    decreases |actions|
  {
    if actions != [] {
      var n := |actions| - 1;
      TxAcceptable(net, actions[..n], current);
      ActionCritical(net, actions[n], current);
      CriticalJoin(TxConflicts(net, actions[..n], current), ActionConflicts(net, actions[n], current));
    }
  }

  lemma {:induction false} AllOkMeans(net: Net, actions: seq<TxnAction>, current: seq<Rule>)
    requires NetOk(net)
    ensures AllOk(net, actions, current) <==> forall a :: a in actions ==> ActionOk(net, a, current)
    decreases |actions|
  {
    if actions != [] {
      var n := |actions| - 1;
      AllOkMeans(net, actions[..n], current);
      assert forall a :: a in actions <==> a in actions[..n] || a == actions[n];
    }
  }

  method CriticalErrors(conflicts: seq<Conflict>) returns (errs: seq<string>)
    ensures errs == [] <==> !Critical(conflicts)
  {
    errs := [];
    var i := 0;
    while i < |conflicts|
      invariant 0 <= i <= |conflicts|
      invariant errs == [] <==> forall k :: 0 <= k < i ==> conflicts[k].severity != "CRITICAL"
    {
      if conflicts[i].severity == "CRITICAL" {
        errs := errs + [conflicts[i].code];
      }
      i := i + 1;
    }
  }

  lemma TxStep(net: Net, actions: seq<TxnAction>, i: nat, current: seq<Rule>)
    requires NetOk(net) && i < |actions|
    ensures TxConflicts(net, actions[..i + 1], current)
      == TxConflicts(net, actions[..i], current) + ActionConflicts(net, actions[i], current)
    ensures AllWellFormed(net, actions[..i + 1]) <==> AllWellFormed(net, actions[..i]) && WellFormed(net, actions[i])
  {
    assert actions[..i + 1][..i] == actions[..i];
  }

  /** The errors and conflicts of all actions in turn. */
  method CheckActions(net: Net, actions: seq<TxnAction>, current: seq<Rule>)
    returns (errs: seq<string>, conflicts: seq<Conflict>)
    requires NetOk(net)
    ensures conflicts == TxConflicts(net, actions, current)
    ensures errs == [] <==> AllWellFormed(net, actions)
  {
    errs, conflicts := [], [];
    var i := 0;
    while i < |actions|
      invariant 0 <= i <= |actions|
      invariant conflicts == TxConflicts(net, actions[..i], current)
      invariant errs == [] <==> AllWellFormed(net, actions[..i])
    {
      TxStep(net, actions, i, current);
      var e, cs := CheckAction(net, actions[i], current);
      errs, conflicts := errs + e, conflicts + cs;
      i := i + 1;
    }
    assert actions[..i] == actions;
  }

  /**
    A transaction is accepted exactly when each of its actions is acceptable, and the
    conflicts of all of them are returned, once per key.
   */
  method ValidateTx(net: Net, actions: seq<TxnAction>, current: seq<Rule>)
    returns (valid: bool, errs: seq<string>, conflicts: seq<Conflict>)
    requires NetOk(net)
    ensures valid <==> forall a :: a in actions ==> ActionOk(net, a, current)
    ensures valid <==> errs == []
    ensures conflicts == Dedupe(TxConflicts(net, actions, current))
    ensures valid ==> !Critical(conflicts)
  {
    errs, conflicts := CheckActions(net, actions, current);
    TxAcceptable(net, actions, current);
    AllOkMeans(net, actions, current);
    DedupeKeepsCritical(conflicts);
    conflicts := DedupeLoop(conflicts);
    var blocking := CriticalErrors(conflicts);
    errs := errs + blocking;
    valid := errs == [];
  }

  // ---------- what acceptance means ----------

  /** A spec of an accepted blocking rule does not match the loopback address. */
  lemma LoopbackSpared(net: Net, other: (string, Ip) -> bool, spec: string, f: Family, x: Ip)
    requires NetOk(net) && net.parseIp(LOOPBACK) == Some(x) && IpOk(x) && IsLoopback(x)
    requires AddrFieldOk(net, spec, f) && !LoopbackSpec(net, spec) && !AddrCovers(net, spec, LOOPBACK)
    ensures !AddrMatches(net, other, spec, x)
  {
    if net.parseCidr(spec).None? && net.parseIp(spec).Some? {
      var y := net.parseIp(spec).value;
      Text.SplitPlain(spec, '/');
      assert y.bits[..|y.bits|] == y.bits && x.bits[..|x.bits|] == x.bits;
    }
  }

  /**
    An accepted transaction that adds, updates, enables or disables an inbound deny, reject
    or drop rule spares the loopback address, in the source and in the destination, and
    shares no port with an existing inbound allow that it does not stand for, whose source
    is any or the same and whose port is any or one range.
   */
  lemma AcceptedTransactionsLockNothingOut(w: World, actions: seq<TxnAction>, current: seq<Rule>,
                                           a: TxnAction, r: Rule, existing: Rule, loopback: Ip)
    requires NetOk(w.net) && w.net.parseIp(LOOPBACK) == Some(loopback) && IsLoopback(loopback)
    requires forall b :: b in actions ==> ActionOk(w.net, b, current)
    requires a in actions && a.op in {"add", "update", "enable", "disable"}
    requires a.rule == Some(r) && r.direction == In && r.action in {Deny, Reject, Drop}
    requires existing in current && existing.action == Allow && existing.direction == In
    requires a.op != "add" ==> existing.id != r.id && (a.ruleId == "" || existing.id != a.ruleId)
    ensures !AddrMatches(w.net, w.address, r.source, loopback)
    ensures !AddrMatches(w.net, w.address, r.destination, loopback)
    ensures IsAny(r.source) || IsAny(existing.source) || r.source == existing.source ==>
      OneRange(existing.destinationPort) ==> !SharePort(w, r.destinationPort, existing.destinationPort)
  {
    assert ActionOk(w.net, a, current);
    LoopbackSpared(w.net, w.address, r.source, r.family, loopback);
    LoopbackSpared(w.net, w.address, r.destination, r.family, loopback);
    OthersStay(current, a.ruleId, r.id);
    assert existing in Joined(a, current);
    SshRisksAreCritical(Joined(a, current), r);
    RiskExact(r, existing);
    ValidIsOneRange(r.destinationPort);
    if OneRange(existing.destinationPort) {
      IntersectMeansShared(w, r.destinationPort, existing.destinationPort);
    }
  }

  lemma ValidIsOneRange(p: string)
    requires Text.PortFieldOk(p)
    ensures OneRange(p)
  {
    if p != "" { Text.ValidPortsParse(p); }
  }
}

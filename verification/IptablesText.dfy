/**
  Rules as iptables arguments and back from save-format lines: the argument builder, the
  tokenizer and the parser, and the round trip between them.
 */
module IptablesText {
  import opened Basics
  import opened Rules
  import opened Text

  const RULE_MARK := "FYRWALL:RULE:"

  // ---------- printing ----------

  function DirectionToChain(d: Direction): string {
    match d
    case In => "INPUT"
    case Out => "OUTPUT"
    case Forward => "FORWARD"
    case OtherDirection(_) => ""
  }

  /** The jump target; an action that is none of the five is refused. */
  function Target(a: Action): Option<string> {
    match a
    case Allow => Some("ACCEPT")
    case Reject => Some("REJECT")
    case Deny => Some("DROP")
    case Drop => Some("DROP")
    case Log => Some("LOG")
    case OtherAction(_) => None
  }

  function ProtocolArgs(p: Protocol): seq<string> {
    match p
    case AnyProto => []
    case Icmp => ["-p", "icmp"]
    case Tcp => ["-p", "tcp"]
    case Udp => ["-p", "udp"]
    case Custom => ["-p", "custom"]
    case OtherProto(t) => ["-p", t]
  }

  function AddressArgs(flag: string, a: string): seq<string> {
    if a != "" && a != "any" then [flag, a] else []
  }

  function FieldArgs(flag: string, v: string): seq<string> {
    if v != "" then [flag, v] else []
  }

  /** appendPortMatch: multiport syntax for lists, colons for ranges. */
  function PortArgs(flag: string, multiFlag: string, p: string): seq<string> {
    var q := Replace(p, '-', ':');
    if p == "" then []
    else if ',' in q then ["-m", "multiport", multiFlag, q]
    else [flag, q]
  }

  function StateArgs(s: string): seq<string> {
    if s != "" then ["-m", "conntrack", "--ctstate", s] else []
  }

  function Comment(r: Rule): string {
    RULE_MARK + r.id + (if r.comment != "" then " " + r.comment else "")
  }

  /** Everything after the chain. */
  function MatchArgs(r: Rule, target: string): seq<string> {
    ProtocolArgs(r.protocol)
    + (AddressArgs("-s", r.source)
    + (AddressArgs("-d", r.destination)
    + (PortArgs("--sport", "--sports", r.sourcePort)
    + (PortArgs("--dport", "--dports", r.destinationPort)
    + (FieldArgs("-i", r.interfaceIn)
    + (FieldArgs("-o", r.interfaceOut)
    + (StateArgs(r.state)
    + (["-m", "comment", "--comment", Comment(r)]
    + ["-j", target]))))))))
  }

  /** ruleToArgs as a function; None is an error. */
  function ArgsOf(r: Rule, op: string): Option<seq<string>> {
    if op != "add" && op != "delete" then None
    else if DirectionToChain(r.direction) == "" then None
    else
      match Target(r.action)
      case None => None
      case Some(target) =>
        var chain := DirectionToChain(r.direction);
        var head := if op == "add" then ["-I", chain, "1"] else ["-D", chain];
        Some(head + MatchArgs(r, target))
  }

  /** The operation, direction and action that printing accepts. */
  predicate Printed(r: Rule, op: string) {
    && op in {"add", "delete"}
    && r.direction in {In, Out, Forward}
    && r.action in {Allow, Reject, Deny, Drop, Log}
  }

  /** The match of a rule, as both operations print it. */
  function SpecOf(r: Rule): seq<string>
    requires Printed(r, "add")
  {
    MatchArgs(r, Target(r.action).value)
  }

  /** What printing accepts, and the command, chain and place in front of the match. */
  lemma ArgsExact(r: Rule, op: string)
    ensures ArgsOf(r, op).Some? <==> Printed(r, op)
    ensures Printed(r, op) ==>
      var args := ArgsOf(r, op).value;
      var chain := match r.direction case In => "INPUT" case Out => "OUTPUT" case _ => "FORWARD";
      args == (if op == "add" then ["-I", chain, "1"] else ["-D", chain]) + SpecOf(r)
  {
  }

  // ---------- what the kernel makes of the arguments ----------

  type Chains = map<string, seq<seq<string>>>

  /** The list of specs without the first one that is equal. */
  function WithoutFirst(specs: seq<seq<string>>, spec: seq<string>): seq<seq<string>> {
    if specs == [] then [] else if specs[0] == spec then specs[1..] else [specs[0]] + WithoutFirst(specs[1..], spec)
  }

  /** Inserting at the top of a chain, and deleting the first equal spec; other commands are refused. */
  function Execute(chains: Chains, args: seq<string>): Option<Chains> {
    if |args| >= 3 && args[0] == "-I" && args[1] in chains && args[2] == "1" then
      Some(chains[args[1] := [args[3..]] + chains[args[1]]])
    else if |args| >= 2 && args[0] == "-D" && args[1] in chains && args[2..] in chains[args[1]] then
      Some(chains[args[1] := WithoutFirst(chains[args[1]], args[2..])])
    else None
  }

  ghost predicate BuiltIn(chains: Chains) { "INPUT" in chains && "OUTPUT" in chains && "FORWARD" in chains }

  /** Adding a rule puts its spec on top of the chain of its direction and touches no other chain. */
  lemma AddInserts(chains: Chains, r: Rule)
    requires BuiltIn(chains) && Printed(r, "add")
    ensures var chain := match r.direction case In => "INPUT" case Out => "OUTPUT" case _ => "FORWARD";
      Execute(chains, ArgsOf(r, "add").value) == Some(chains[chain := [SpecOf(r)] + chains[chain]])
  {
    var args := ArgsOf(r, "add").value;
    ArgsExact(r, "add");
    assert args[3..] == SpecOf(r);
  }

  /** Deleting a rule right after it was added leaves every chain as it was. */
  lemma DeleteUndoesAdd(chains: Chains, r: Rule)
    requires BuiltIn(chains) && Printed(r, "add")
    ensures var added := Execute(chains, ArgsOf(r, "add").value);
      added.Some? && Execute(added.value, ArgsOf(r, "delete").value) == Some(chains)
  {
    var args := ArgsOf(r, "delete").value;
    ArgsExact(r, "delete");
    assert args[2..] == SpecOf(r);
    AddInserts(chains, r);
    var chain := args[1];
    var added := chains[chain := [SpecOf(r)] + chains[chain]];
    assert added[chain][0] == SpecOf(r) && added[chain][1..] == chains[chain];
    assert added[chain := chains[chain]] == chains;
  }

  method AppendPortMatch(args: seq<string>, direction: string, port: string) returns (r: seq<string>)
    requires port != ""
    ensures r == args + if direction == "source" then PortArgs("--sport", "--sports", port)
                        else PortArgs("--dport", "--dports", port)
  {
    var q := Replace(port, '-', ':');
    var flag, multiFlag := "--dport", "--dports";
    if direction == "source" {
      flag, multiFlag := "--sport", "--sports";
    }
    if ',' in q {
      return args + ["-m", "multiport", multiFlag, q];
    }
    r := args + [flag, q];
  }

  lemma Regroup(x: seq<string>, y: seq<string>, z: seq<string>)
    ensures x + (y + z) == (x + y) + z
  {
  }

  method RuleToArgs(r: Rule, op: string) returns (result: Option<seq<string>>)
    ensures result == ArgsOf(r, op)
  {
    if op != "add" && op != "delete" {
      return None;
    }
    var chain := DirectionToChain(r.direction);
    if chain == "" {
      return None;
    }
    var target := Target(r.action);
    if target.None? {
      return None;
    }
    var args := if op == "add" then ["-I", chain, "1"] else ["-D", chain];
    var matches := GrowArgs(args, r, target.value);
    result := Some(matches);
  }

  /** The argument slice grows field by field. */
  method GrowArgs(head: seq<string>, r: Rule, target: string) returns (args: seq<string>)
    ensures args == head + MatchArgs(r, target)
  {
    ghost var a9 := ["-j", target];
    ghost var a8 := ["-m", "comment", "--comment", Comment(r)] + a9;
    ghost var a7 := StateArgs(r.state) + a8;
    ghost var a6 := FieldArgs("-o", r.interfaceOut) + a7;
    ghost var a5 := FieldArgs("-i", r.interfaceIn) + a6;
    ghost var a4 := PortArgs("--dport", "--dports", r.destinationPort) + a5;
    ghost var a3 := PortArgs("--sport", "--sports", r.sourcePort) + a4;
    ghost var a2 := AddressArgs("-d", r.destination) + a3;
    ghost var a1 := AddressArgs("-s", r.source) + a2;
    Regroup(head, ProtocolArgs(r.protocol), a1);
    args := head + ProtocolArgs(r.protocol);
    Regroup(args, AddressArgs("-s", r.source), a2);
    args := args + AddressArgs("-s", r.source);
    Regroup(args, AddressArgs("-d", r.destination), a3);
    args := args + AddressArgs("-d", r.destination);
    Regroup(args, PortArgs("--sport", "--sports", r.sourcePort), a4);
    if r.sourcePort != "" {
      args := AppendPortMatch(args, "source", r.sourcePort);
    } else {
      assert args + [] == args;
    }
    Regroup(args, PortArgs("--dport", "--dports", r.destinationPort), a5);
    if r.destinationPort != "" {
      args := AppendPortMatch(args, "destination", r.destinationPort);
    } else {
      assert args + [] == args;
    }
    Regroup(args, FieldArgs("-i", r.interfaceIn), a6);
    args := args + FieldArgs("-i", r.interfaceIn);
    Regroup(args, FieldArgs("-o", r.interfaceOut), a7);
    args := args + FieldArgs("-o", r.interfaceOut);
    Regroup(args, StateArgs(r.state), a8);
    args := args + StateArgs(r.state);
    Regroup(args, ["-m", "comment", "--comment", Comment(r)], a9);
    args := args + ["-m", "comment", "--comment", Comment(r)];
    args := args + ["-j", target];
  }

  // ---------- tokens ----------

  /** What tokenize yields for the rest of a line, given the word and quotation in progress. */
  function Tokens(s: string, cur: string, quoted: bool): seq<string>
    decreases |s|
  {
    if s == "" then (if cur != "" then [cur] else [])
    else if s[0] == '\'' then Tokens(s[1..], cur, !quoted)
    else if s[0] == ' ' && !quoted then (if cur != "" then [cur] else []) + Tokens(s[1..], "", quoted)
    else Tokens(s[1..], cur + [s[0]], quoted)
  }

  method Tokenize(line: string) returns (out: seq<string>)
    ensures out == Tokens(line, "", false)
  {
    out := [];
    var cur, quoted := "", false;
    var i := 0;
    assert line[0..] == line;
    while i < |line|
      invariant 0 <= i <= |line|
      invariant Tokens(line, "", false) == out + Tokens(line[i..], cur, quoted)
    {
      assert line[i..][0] == line[i] && line[i..][1..] == line[i + 1..];
      if line[i] == '\'' {
        quoted := !quoted;
      } else if line[i] == ' ' && !quoted {
        Regroup(out, if cur != "" then [cur] else [], Tokens(line[i + 1..], "", quoted));
        if cur != "" {
          out := out + [cur];
          cur := "";
        } else {
          assert out + [] == out;
        }
      } else {
        cur := cur + [line[i]];
      }
      i := i + 1;
    }
    if cur != "" {
      out := out + [cur];
    }
  }

  /** A token as a line shows it: in single quotes if it holds a space. */
  function Quote(t: string): string { if ' ' in t then "'" + t + "'" else t }

  function Quoted(ts: seq<string>): seq<string> {
    if ts == [] then [] else [Quote(ts[0])] + Quoted(ts[1..])
  }

  function Line(ts: seq<string>): string { Join(Quoted(ts), ' ') }

  lemma {:induction false} TokensPlain(t: string, s: string, cur: string)
    requires ' ' !in t && '\'' !in t
    ensures Tokens(t + s, cur, false) == Tokens(s, cur + t, false)
  {
    if t == "" {
      assert t + s == s && cur + t == cur;
    } else {
      assert (t + s)[1..] == t[1..] + s;
      assert cur + [t[0]] + t[1..] == cur + t;
      TokensPlain(t[1..], s, cur + [t[0]]);
    }
  }

  lemma {:induction false} TokensInQuotes(t: string, s: string, cur: string)
    requires '\'' !in t
    ensures Tokens(t + s, cur, true) == Tokens(s, cur + t, true)
  {
    if t == "" {
      assert t + s == s && cur + t == cur;
    } else {
      assert (t + s)[1..] == t[1..] + s;
      assert cur + [t[0]] + t[1..] == cur + t;
      TokensInQuotes(t[1..], s, cur + [t[0]]);
    }
  }

  lemma TokensQuoted(t: string, s: string)
    requires '\'' !in t
    ensures Tokens(Quote(t) + s, "", false) == Tokens(s, t, false)
  {
    if ' ' in t {
      assert (Quote(t) + s)[1..] == t + ("'" + s);
      TokensInQuotes(t, "'" + s, "");
      assert "" + t == t;
      assert ("'" + s)[1..] == s;
    } else {
      TokensPlain(t, s, "");
      assert "" + t == t;
    }
  }

  /** The tokens that a line can show: an empty one leaves nothing behind. */
  function Visible(ts: seq<string>): seq<string> {
    if ts == [] then [] else (if ts[0] != "" then [ts[0]] else []) + Visible(ts[1..])
  }

  lemma {:induction false} AllVisible(ts: seq<string>)
    requires forall i :: 0 <= i < |ts| ==> ts[i] != ""
    ensures Visible(ts) == ts
  {
    if ts != [] { AllVisible(ts[1..]); }
  }

  lemma {:induction false} VisibleConcat(xs: seq<string>, ys: seq<string>)
    ensures Visible(xs + ys) == Visible(xs) + Visible(ys)
  {
    if xs == [] {
      assert xs + ys == ys;
    } else {
      assert (xs + ys)[1..] == xs[1..] + ys;
      VisibleConcat(xs[1..], ys);
    }
  }

  /** Tokenizing a joined line gives back the tokens that are not empty. */
  lemma {:induction false} TokenizeLine(ts: seq<string>)
    requires ts != [] && forall i :: 0 <= i < |ts| ==> '\'' !in ts[i]
    ensures Tokens(Line(ts), "", false) == Visible(ts)
  {
    if |ts| == 1 {
      TokensQuoted(ts[0], "");
      assert Quoted(ts) == [Quote(ts[0])];
      assert Quote(ts[0]) + "" == Quote(ts[0]);
    } else {
      var rest := Line(ts[1..]);
      assert Quoted(ts)[1..] == Quoted(ts[1..]);
      assert Line(ts) == Quote(ts[0]) + (" " + rest);
      TokensQuoted(ts[0], " " + rest);
      assert (" " + rest)[1..] == rest;
      TokenizeLine(ts[1..]);
    }
  }

  // ---------- ports ----------

  function ItoaInt(n: int): string { if n < 0 then "-" + Itoa(-n) else Itoa(n) }

  /** normalizePort. */
  function NormalizePort(p: string): string {
    var i := IndexOf(p, ':');
    if i == |p| then p
    else
      var lo, hi := Atoi(p[..i]), Atoi(p[i + 1..]);
      if lo.ok && hi.ok then ItoaInt(lo.value) + "-" + ItoaInt(hi.value) else p
  }

  function NormalizeAll(parts: seq<string>): (r: seq<string>)
    ensures |r| == |parts|
    ensures forall i :: 0 <= i < |parts| ==> r[i] == NormalizePort(parts[i])
  {
    if parts == [] then [] else [NormalizePort(parts[0])] + NormalizeAll(parts[1..])
  }

  function NormalizeMultiPort(p: string): string { Join(NormalizeAll(Split(p, ',')), ',') }

  method NormalizeMultiPortLoop(p: string) returns (r: string)
    ensures r == NormalizeMultiPort(p)
  {
    var parts := Split(p, ',');
    ghost var was := parts;
    var i := 0;
    while i < |parts|
      invariant 0 <= i <= |parts| == |was|
      invariant forall k :: 0 <= k < i ==> parts[k] == NormalizeAll(was)[k]
      invariant forall k :: i <= k < |was| ==> parts[k] == was[k]
    {
      parts := parts[i := NormalizePort(parts[i])];
      i := i + 1;
    }
    assert parts == NormalizeAll(was);
    r := Join(parts, ',');
  }

  /** One port or range of a canonical port field. */
  datatype PortItem = One(n: nat) | Span(lo: nat, hi: nat)

  predicate ItemOk(x: PortItem) {
    match x
    case One(n) => n <= 65535
    case Span(lo, hi) => lo <= 65535 && hi <= 65535
  }

  function Item(x: PortItem, sep: char): (s: string)
    ensures s != ""
  {
    match x
    case One(n) => Itoa(n)
    case Span(lo, hi) => Itoa(lo) + [sep] + Itoa(hi)
  }

  function Items(xs: seq<PortItem>, sep: char): (ts: seq<string>)
    ensures |ts| == |xs|
    ensures forall i :: 0 <= i < |ts| ==> ts[i] == Item(xs[i], sep)
  {
    if xs == [] then [] else [Item(xs[0], sep)] + Items(xs[1..], sep)
  }

  /** The canonical text of a list of ports and ranges, in plain decimals; none is empty. */
  function PortField(xs: seq<PortItem>): string { Join(Items(xs, '-'), ',') }

  lemma ItoaPlain(n: nat, c: char)
    requires !IsDigit(c)
    ensures c !in Itoa(n)
  {
  }

  lemma ReplaceItem(x: PortItem)
    ensures Replace(Item(x, '-'), '-', ':') == Item(x, ':')
    ensures ',' !in Item(x, ':')
  {
  }

  lemma {:induction false} ReplaceItems(xs: seq<PortItem>)
    ensures Replace(Join(Items(xs, '-'), ','), '-', ':') == Join(Items(xs, ':'), ',')
  {
    if |xs| == 1 {
      ReplaceItem(xs[0]);
    } else if xs != [] {
      ReplaceItem(xs[0]);
      ReplaceItems(xs[1..]);
      var t, u := Item(xs[0], '-'), Join(Items(xs[1..], '-'), ',');
      assert Items(xs, '-')[1..] == Items(xs[1..], '-') && Items(xs, ':')[1..] == Items(xs[1..], ':');
      ReplaceConcat(t + ",", u, '-', ':');
      ReplaceConcat(t, ",", '-', ':');
    }
  }

  /** Reading a printed item normalizes it back. */
  lemma NormalizeItem(x: PortItem)
    requires ItemOk(x)
    ensures NormalizePort(Item(x, ':')) == Item(x, '-')
  {
    match x
    case One(n) =>
      ItoaPlain(n, ':');
    case Span(lo, hi) =>
      ItoaPlain(lo, ':');
      var s := Item(x, ':');
      var i := |Itoa(lo)|;
      assert s[i] == ':' && forall j :: 0 <= j < i ==> s[j] == Itoa(lo)[j];
      assert IndexOf(s, ':') == i;
      assert s[..i] == Itoa(lo) && s[i + 1..] == Itoa(hi);
      AtoiItoa(lo);
      AtoiItoa(hi);
  }

  lemma {:induction false} NormalizeItems(xs: seq<PortItem>)
    requires forall i :: 0 <= i < |xs| ==> ItemOk(xs[i])
    ensures NormalizeAll(Items(xs, ':')) == Items(xs, '-')
  {
    if xs != [] {
      NormalizeItem(xs[0]);
      NormalizeItems(xs[1..]);
      assert Items(xs, ':')[1..] == Items(xs[1..], ':');
    }
  }

  predicate PortsOk(xs: seq<PortItem>) { forall i :: 0 <= i < |xs| ==> ItemOk(xs[i]) }

  /** A list of ports, printed with colons and read as multiport syntax, is unchanged. */
  lemma PortListRoundTrip(xs: seq<PortItem>)
    requires xs != [] && PortsOk(xs)
    ensures NormalizeMultiPort(Replace(PortField(xs), '-', ':')) == PortField(xs)
  {
    ReplaceItems(xs);
    forall i | 0 <= i < |xs| ensures ',' !in Items(xs, ':')[i] { ReplaceItem(xs[i]); }
    SplitJoin(Items(xs, ':'), ',');
    NormalizeItems(xs);
  }

  /** A single port or range too. */
  lemma PortRoundTrip(xs: seq<PortItem>)
    requires |xs| == 1 && PortsOk(xs)
    ensures NormalizePort(Replace(PortField(xs), '-', ':')) == PortField(xs)
    ensures ',' !in Replace(PortField(xs), '-', ':')
  {
    ReplaceItem(xs[0]);
    NormalizeItem(xs[0]);
  }

  lemma ListHasComma(xs: seq<PortItem>)
    requires |xs| > 1
    ensures ',' in Replace(PortField(xs), '-', ':')
  {
    var s := PortField(xs);
    var k := |Item(xs[0], '-')|;
    assert s[k] == ',';
    assert Replace(s, '-', ':')[k] == ',';
  }
}

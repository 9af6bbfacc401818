/** The save-format parser, and its round trip with the argument builder. */
module IptablesParser {
  import opened Basics
  import opened Rules
  import opened Text
  import opened IptablesText

  function UpperChar(c: char): char { if 'a' <= c <= 'z' then c - 'a' + 'A' else c }

  function LowerChar(c: char): char { if 'A' <= c <= 'Z' then c - 'A' + 'a' else c }

  function Upper(s: string): string { if s == "" then "" else [UpperChar(s[0])] + Upper(s[1..]) }

  function Lower(s: string): string { if s == "" then "" else [LowerChar(s[0])] + Lower(s[1..]) }

  function ChainToDirection(chain: string): Option<Direction> {
    var c := Upper(chain);
    if c == "INPUT" then Some(In)
    else if c == "OUTPUT" then Some(Out)
    else if c == "FORWARD" then Some(Forward)
    else None
  }

  function ProtoOf(p: string): Protocol {
    var q := Lower(p);
    if q == "tcp" then Tcp
    else if q == "udp" then Udp
    else if q == "icmp" || q == "ipv6-icmp" || q == "icmpv6" then Icmp
    else if q == "all" then AnyProto
    else Custom
  }

  lemma {:induction false} CaseOnly(s: string)
    ensures Upper(Lower(s)) == Upper(s) && Lower(Upper(s)) == Lower(s)
  {
    if s != "" { CaseOnly(s[1..]); }
  }

  /** Chain and protocol names are read whatever their case. */
  lemma CaseIgnored(s: string)
    ensures ChainToDirection(Lower(s)) == ChainToDirection(s) && ProtoOf(Upper(s)) == ProtoOf(s)
  {
    CaseOnly(s);
  }

  function TargetAction(t: string): Option<Action> {
    if t == "ACCEPT" then Some(Allow)
    else if t == "DROP" then Some(Drop)
    else if t == "REJECT" then Some(Reject)
    else if t == "LOG" then Some(Log)
    else None
  }

  datatype Flag =
    | ProtocolFlag | SourceFlag | DestinationFlag | SportFlag | DportFlag | SportsFlag | DportsFlag
    | InFlag | OutFlag | StateFlag | CommentFlag | JumpFlag | ModuleFlag | NoFlag

  function FlagOf(s: string): Flag {
    if s == "-p" || s == "--protocol" then ProtocolFlag
    else if s == "-s" || s == "--source" || s == "--src" then SourceFlag
    else if s == "-d" || s == "--destination" || s == "--dst" then DestinationFlag
    else if s == "--sport" || s == "--source-port" then SportFlag
    else if s == "--dport" || s == "--destination-port" then DportFlag
    else if s == "--sports" || s == "--source-ports" then SportsFlag
    else if s == "--dports" || s == "--destination-ports" then DportsFlag
    else if s == "-i" || s == "--in-interface" then InFlag
    else if s == "-o" || s == "--out-interface" then OutFlag
    else if s == "--ctstate" then StateFlag
    else if s == "--comment" then CommentFlag
    else if s == "-j" || s == "--jump" then JumpFlag
    else if s == "-m" then ModuleFlag
    else NoFlag
  }

  function TrimPrefix(s: string, p: string): string { if p <= s then s[|p|..] else s }

  /** What the option loop has gathered: the rule so far and the jump target. */
  datatype Draft = Draft(rule: Rule, target: string)

  function SetOption(d: Draft, flag: Flag, v: string): Draft {
    match flag
    case ProtocolFlag => d.(rule := d.rule.(protocol := ProtoOf(v)))
    case SourceFlag => d.(rule := d.rule.(source := v))
    case DestinationFlag => d.(rule := d.rule.(destination := v))
    case SportFlag => d.(rule := d.rule.(sourcePort := NormalizePort(v)))
    case DportFlag => d.(rule := d.rule.(destinationPort := NormalizePort(v)))
    case SportsFlag => d.(rule := d.rule.(sourcePort := NormalizeMultiPort(v)))
    case DportsFlag => d.(rule := d.rule.(destinationPort := NormalizeMultiPort(v)))
    case InFlag => d.(rule := d.rule.(interfaceIn := v))
    case OutFlag => d.(rule := d.rule.(interfaceOut := v))
    case StateFlag => d.(rule := d.rule.(state := v))
    case CommentFlag => d.(rule := d.rule.(comment := TrimPrefix(v, RULE_MARK)))
    case JumpFlag => d.(target := v)
    case ModuleFlag => d
    case NoFlag => d
  }

  /** The option loop on the tokens that are left: a flag takes the next token as its value. */
  function Options(f: seq<string>, d: Draft): Draft
    decreases |f|
  {
    if f == [] then d
    else if FlagOf(f[0]) == NoFlag || |f| == 1 then Options(f[1..], d)
    else Options(f[2..], SetOption(d, FlagOf(f[0]), f[1]))
  }

  /** A rule as the parser starts it; the protocol is unset and the id is not modelled. */
  function Blank(fam: Family, dir: Direction, priority: int): Rule {
    Rule("", fam, dir, OtherAction(""), OtherProto(""), "", "", "", "", "", "", "", "", true, priority)
  }

  predicate IsSpace(c: char) { c == ' ' || c == '\t' || c == '\n' || c == '\r' || c == '\U{000B}' || c == '\U{000C}' }

  function TrimLeft(s: string): string { if s != "" && IsSpace(s[0]) then TrimLeft(s[1..]) else s }

  function TrimRight(s: string): string {
    if s != "" && IsSpace(s[|s| - 1]) then TrimRight(s[..|s| - 1]) else s
  }

  function TrimSpace(s: string): string { TrimRight(TrimLeft(s)) }

  /** Spaces around a text that neither starts nor ends with one are trimmed, and nothing else. */
  lemma {:induction false} TrimPadding(p: string, s: string, q: string)
    requires forall i :: 0 <= i < |p| ==> IsSpace(p[i])
    requires forall i :: 0 <= i < |q| ==> IsSpace(q[i])
    requires s != "" && !IsSpace(s[0]) && !IsSpace(s[|s| - 1])
    ensures TrimSpace(p + s + q) == s
    decreases |p| + |q|
  {
    if p != "" {
      assert (p + s + q)[1..] == p[1..] + s + q;
      TrimPadding(p[1..], s, q);
    } else {
      assert p + s + q == s + q;
      TrimEnd(s, q);
    }
  }

  lemma {:induction false} TrimEnd(s: string, q: string)
    requires forall i :: 0 <= i < |q| ==> IsSpace(q[i])
    requires s != "" && !IsSpace(s[0]) && !IsSpace(s[|s| - 1])
    ensures TrimRight(s + q) == s && TrimLeft(s + q) == s + q
    decreases |q|
  {
    if q != "" {
      assert (s + q)[..|s + q| - 1] == s + q[..|q| - 1];
      TrimEnd(s, q[..|q| - 1]);
    } else {
      assert s + q == s;
    }
  }

  /** The direction of a line that appends to a built-in chain. */
  function LineDirection(raw: string): Option<Direction> {
    var line := TrimSpace(raw);
    if !("-A " <= line) then None
    else
      var f := Tokens(line, "", false);
      if |f| < 3 then None else ChainToDirection(f[1])
  }

  /** The rule of such a line; None when the target is not one of the four. */
  function LineRule(raw: string, fam: Family, priority: int): Option<Rule> {
    var f := Tokens(TrimSpace(raw), "", false);
    var dir := LineDirection(raw);
    if dir.None? || |f| < 2 then None else Finished(Options(f[2..], Draft(Blank(fam, dir.value, priority), "")))
  }

  /** The rule once the target names its action. */
  function Finished(d: Draft): Option<Rule> {
    match TargetAction(d.target)
    case None => None
    case Some(a) => Some(d.rule.(action := a))
  }

  /** The rules of the lines; every line on a built-in chain takes a priority. */
  function ParseLines(lines: seq<string>, fam: Family, priority: int): seq<Rule> {
    if lines == [] then []
    else if LineDirection(lines[0]).None? then ParseLines(lines[1..], fam, priority)
    else
      var r := LineRule(lines[0], fam, priority);
      (if r.Some? then [r.value] else []) + ParseLines(lines[1..], fam, priority + 1)
  }

  function Parse(content: string, fam: Family): seq<Rule> { ParseLines(Split(content, '\n'), fam, 0) }

  // ---------- the loops ----------

  method OptionLoop(f: seq<string>, start: Draft) returns (d: Draft)
    requires |f| >= 2
    ensures d == Options(f[2..], start)
  {
    d := start;
    var i := 2;
    while i < |f|
      invariant 2 <= i <= |f|
      invariant Options(f[i..], d) == Options(f[2..], start)
    {
      assert f[i..][0] == f[i] && f[i..][1..] == f[i + 1..];
      var flag := FlagOf(f[i]);
      if flag != NoFlag && i + 1 < |f| {
        assert f[i..][1] == f[i + 1] && f[i..][2..] == f[i + 2..];
        d := SetOption(d, flag, f[i + 1]);
        i := i + 1;
      }
      i := i + 1;
    }
  }

  /** One line: the direction of its built-in chain, and its rule if the target is known. */
  method ParseLine(raw: string, fam: Family, priority: int) returns (dir: Option<Direction>, rule: Option<Rule>)
    ensures dir == LineDirection(raw) && rule == LineRule(raw, fam, priority)
  {
    var line := TrimSpace(raw);
    if !("-A " <= line) {
      return None, None;
    }
    var f := Tokenize(line);
    if |f| < 3 {
      return None, None;
    }
    dir := ChainToDirection(f[1]);
    if dir.None? {
      return None, None;
    }
    var d := OptionLoop(f, Draft(Blank(fam, dir.value, priority), ""));
    rule := Finished(d);
  }

  method ParseSave(content: string, fam: Family) returns (rules: seq<Rule>)
    ensures rules == Parse(content, fam)
  {
    rules := [];
    var priority := 0;
    var lines := Split(content, '\n');
    var n := 0;
    assert lines[0..] == lines;
    while n < |lines|
      invariant 0 <= n <= |lines|
      invariant ParseLines(lines, fam, 0) == rules + ParseLines(lines[n..], fam, priority)
    {
      assert lines[n..][0] == lines[n] && lines[n..][1..] == lines[n + 1..];
      var dir, rule := ParseLine(lines[n], fam, priority);
      n := n + 1;
      if dir.None? {
        continue;
      }
      priority := priority + 1;
      JoinRules(rules, rule, ParseLines(lines[n..], fam, priority));
      if rule.Some? {
        rules := rules + [rule.value];
      }
    }
  }

  lemma JoinRules(xs: seq<Rule>, r: Option<Rule>, ys: seq<Rule>)
    ensures xs + ((if r.Some? then [r.value] else []) + ys) == (if r.Some? then xs + [r.value] else xs) + ys
  {
  }

  // ---------- the round trip ----------

  lemma FlagNames()
    ensures FlagOf("-p") == ProtocolFlag && FlagOf("-s") == SourceFlag && FlagOf("-d") == DestinationFlag
    ensures FlagOf("-i") == InFlag && FlagOf("-o") == OutFlag && FlagOf("-j") == JumpFlag && FlagOf("-m") == ModuleFlag
  {
  }

  lemma LongFlagNames()
    ensures FlagOf("--sport") == SportFlag && FlagOf("--dport") == DportFlag
    ensures FlagOf("--sports") == SportsFlag && FlagOf("--dports") == DportsFlag
    ensures FlagOf("--ctstate") == StateFlag && FlagOf("--comment") == CommentFlag
  {
  }

  /** One flag with its value at the front of the tokens. */
  lemma OptionPair(flag: string, v: string, rest: seq<string>, d: Draft)
    requires FlagOf(flag) != NoFlag
    ensures Options([flag, v] + rest, d) == Options(rest, SetOption(d, FlagOf(flag), v))
  {
  }

  /** A module name and an option of that module. */
  lemma OptionModule(name: string, flag: string, v: string, rest: seq<string>, d: Draft)
    requires FlagOf(flag) != NoFlag
    ensures Options(["-m", name, flag, v] + rest, d) == Options(rest, SetOption(d, FlagOf(flag), v))
  {
    FlagNames();
    assert ["-m", name, flag, v] + rest == ["-m", name] + ([flag, v] + rest);
    OptionPair("-m", name, [flag, v] + rest, d);
    OptionPair(flag, v, rest, d);
  }

  /**
    The protocol as the parser reports it: "any" prints nothing and stays unset, and any
    text that is none of the known ones is read as what it resembles, or as custom.
   */
  function ReadProtocol(p: Protocol): Protocol {
    match p
    case AnyProto => OtherProto("")
    case OtherProto(t) => if t == "" then p else ProtoOf(t)
    case _ => p
  }

  lemma ProtocolStep(p: Protocol, rest: seq<string>, d: Draft)
    requires p != OtherProto("") && d.rule.protocol == OtherProto("")
    ensures Options(ProtocolArgs(p) + rest, d) == Options(rest, d.(rule := d.rule.(protocol := ReadProtocol(p))))
  {
    FlagNames();
    ProtocolNames();
    match p
    case AnyProto => assert [] + rest == rest;
    case Tcp => OptionPair("-p", "tcp", rest, d);
    case Udp => OptionPair("-p", "udp", rest, d);
    case Icmp => OptionPair("-p", "icmp", rest, d);
    case Custom => OptionPair("-p", "custom", rest, d);
    case OtherProto(t) => OptionPair("-p", t, rest, d);
  }

  lemma ProtocolNames()
    ensures ProtoOf("tcp") == Tcp && ProtoOf("udp") == Udp && ProtoOf("icmp") == Icmp && ProtoOf("custom") == Custom
  {
    assert Lower("tcp") == "tcp" by { LowerStays("tcp"); }
    assert Lower("udp") == "udp" by { LowerStays("udp"); }
    assert Lower("icmp") == "icmp" by { LowerStays("icmp"); }
    assert Lower("custom") == "custom" by { LowerStays("custom"); }
  }

  lemma {:induction false} LowerStays(s: string)
    requires forall i :: 0 <= i < |s| ==> !('A' <= s[i] <= 'Z')
    ensures Lower(s) == s
  {
    if s != "" { LowerStays(s[1..]); }
  }

  lemma {:induction false} UpperStays(s: string)
    requires forall i :: 0 <= i < |s| ==> !('a' <= s[i] <= 'z')
    ensures Upper(s) == s
  {
    if s != "" { UpperStays(s[1..]); }
  }

  function ReadAddress(a: string): string { if a == "any" then "" else a }

  lemma AddressStep(flag: string, a: string, rest: seq<string>, d: Draft)
    requires FlagOf(flag) == SourceFlag || FlagOf(flag) == DestinationFlag
    requires if FlagOf(flag) == SourceFlag then d.rule.source == "" else d.rule.destination == ""
    ensures Options(AddressArgs(flag, a) + rest, d) == Options(rest, SetOption(d, FlagOf(flag), ReadAddress(a)))
  {
    if a != "" && a != "any" {
      OptionPair(flag, a, rest, d);
    } else {
      assert [] + rest == rest;
      assert SetOption(d, FlagOf(flag), "") == d;
    }
  }

  lemma FieldStep(flag: string, v: string, rest: seq<string>, d: Draft)
    requires FlagOf(flag) == InFlag || FlagOf(flag) == OutFlag
    requires if FlagOf(flag) == InFlag then d.rule.interfaceIn == "" else d.rule.interfaceOut == ""
    ensures Options(FieldArgs(flag, v) + rest, d) == Options(rest, SetOption(d, FlagOf(flag), v))
  {
    if v != "" {
      OptionPair(flag, v, rest, d);
    } else {
      assert [] + rest == rest;
      assert SetOption(d, FlagOf(flag), "") == d;
    }
  }

  /** A port field in canonical form: empty, or ports and ranges in plain decimals. */
  ghost predicate CanonicalPorts(p: string) {
    exists xs :: PortsOk(xs) && p == PortField(xs)
  }

  /** The flags of one of the two port fields, and what they set. */
  function PortFlag(source: bool): string { if source then "--sport" else "--dport" }

  function MultiFlag(source: bool): string { if source then "--sports" else "--dports" }

  function SetPort(d: Draft, source: bool, p: string): Draft {
    d.(rule := if source then d.rule.(sourcePort := p) else d.rule.(destinationPort := p))
  }

  lemma PortFlags(source: bool, d: Draft, v: string)
    ensures FlagOf(PortFlag(source)) != NoFlag && FlagOf(MultiFlag(source)) != NoFlag
    ensures SetOption(d, FlagOf(PortFlag(source)), v) == SetPort(d, source, NormalizePort(v))
    ensures SetOption(d, FlagOf(MultiFlag(source)), v) == SetPort(d, source, NormalizeMultiPort(v))
  {
    LongFlagNames();
  }

  /** The printed form of a canonical port field: nothing, one port or range, or a list. */
  lemma PortForms(source: bool, p: string)
    requires CanonicalPorts(p)
    ensures var q := Replace(p, '-', ':'); var args := PortArgs(PortFlag(source), MultiFlag(source), p);
      || (p == "" && args == [])
      || (args == [PortFlag(source), q] && NormalizePort(q) == p)
      || (args == ["-m", "multiport", MultiFlag(source), q] && NormalizeMultiPort(q) == p)
  {
    var xs :| PortsOk(xs) && p == PortField(xs);
    if |xs| == 1 {
      PortRoundTrip(xs);
    } else if |xs| > 1 {
      ListHasComma(xs);
      PortListRoundTrip(xs);
    }
  }

  lemma PortStep(source: bool, p: string, rest: seq<string>, d: Draft)
    requires CanonicalPorts(p)
    requires if source then d.rule.sourcePort == "" else d.rule.destinationPort == ""
    ensures Options(PortArgs(PortFlag(source), MultiFlag(source), p) + rest, d) == Options(rest, SetPort(d, source, p))
  {
    var q, args := Replace(p, '-', ':'), PortArgs(PortFlag(source), MultiFlag(source), p);
    PortForms(source, p);
    PortFlags(source, d, q);
    if args == [] {
      assert [] + rest == rest;
      assert SetPort(d, source, "") == d;
    } else if args == [PortFlag(source), q] {
      OptionPair(PortFlag(source), q, rest, d);
    } else {
      OptionModule("multiport", MultiFlag(source), q, rest, d);
    }
  }

  lemma StateStep(s: string, rest: seq<string>, d: Draft)
    requires d.rule.state == ""
    ensures Options(StateArgs(s) + rest, d) == Options(rest, d.(rule := d.rule.(state := s)))
  {
    LongFlagNames();
    if s != "" {
      OptionModule("conntrack", "--ctstate", s, rest, d);
    } else {
      assert [] + rest == rest;
    }
  }

  /** The comment as the parser reports it: the id, and the comment behind it. */
  function ReadComment(r: Rule): string { r.id + (if r.comment != "" then " " + r.comment else "") }

  lemma CommentStep(r: Rule, rest: seq<string>, d: Draft)
    ensures Options(["-m", "comment", "--comment", Comment(r)] + rest, d)
      == Options(rest, d.(rule := d.rule.(comment := ReadComment(r))))
  {
    LongFlagNames();
    OptionModule("comment", "--comment", Comment(r), rest, d);
    assert Comment(r) == RULE_MARK + ReadComment(r);
    assert TrimPrefix(Comment(r), RULE_MARK) == ReadComment(r);
  }

  /** The rule that comes back: what printing keeps of it. */
  function ReadBack(r: Rule, fam: Family, priority: int): Rule {
    Rule("", fam, r.direction, if r.action == Deny then Drop else r.action, ReadProtocol(r.protocol),
         ReadAddress(r.source), r.sourcePort, ReadAddress(r.destination), r.destinationPort,
         r.interfaceIn, r.interfaceOut, r.state, ReadComment(r), true, priority)
  }

  lemma ReadMatchArgs(r: Rule, target: string, d: Draft)
    requires r.protocol != OtherProto("") && CanonicalPorts(r.sourcePort) && CanonicalPorts(r.destinationPort)
    requires d == Draft(Blank(d.rule.family, d.rule.direction, d.rule.priority), "")
    ensures Options(MatchArgs(r, target), d)
      == Draft(ReadBack(r, d.rule.family, d.rule.priority).(
                 direction := d.rule.direction, action := OtherAction("")), target)
  {
    FlagNames();
    var a9 := ["-j", target];
    var a8 := ["-m", "comment", "--comment", Comment(r)] + a9;
    var a7 := StateArgs(r.state) + a8;
    var a6 := FieldArgs("-o", r.interfaceOut) + a7;
    var a5 := FieldArgs("-i", r.interfaceIn) + a6;
    var a4 := PortArgs("--dport", "--dports", r.destinationPort) + a5;
    var a3 := PortArgs("--sport", "--sports", r.sourcePort) + a4;
    var a2 := AddressArgs("-d", r.destination) + a3;
    var a1 := AddressArgs("-s", r.source) + a2;
    var d1 := d.(rule := d.rule.(protocol := ReadProtocol(r.protocol)));
    ProtocolStep(r.protocol, a1, d);
    var d2 := d1.(rule := d1.rule.(source := ReadAddress(r.source)));
    AddressStep("-s", r.source, a2, d1);
    var d3 := d2.(rule := d2.rule.(destination := ReadAddress(r.destination)));
    AddressStep("-d", r.destination, a3, d2);
    var d4 := d3.(rule := d3.rule.(sourcePort := r.sourcePort));
    PortStep(true, r.sourcePort, a4, d3);
    var d5 := d4.(rule := d4.rule.(destinationPort := r.destinationPort));
    PortStep(false, r.destinationPort, a5, d4);
    var d6 := d5.(rule := d5.rule.(interfaceIn := r.interfaceIn));
    FieldStep("-i", r.interfaceIn, a6, d5);
    var d7 := d6.(rule := d6.rule.(interfaceOut := r.interfaceOut));
    FieldStep("-o", r.interfaceOut, a7, d6);
    var d8 := d7.(rule := d7.rule.(state := r.state));
    StateStep(r.state, a8, d7);
    var d9 := d8.(rule := d8.rule.(comment := ReadComment(r)));
    CommentStep(r, a9, d8);
    assert a9 + [] == a9;
    OptionPair("-j", target, [], d9);
  }

  /** The line that a save prints for an added rule: the printed chain, and what follows the place. */
  function SaveTokens(r: Rule): seq<string> {
    var args := ArgsOf(r, "add");
    if args.None? || |args.value| < 3 then [] else ["-A", args.value[1]] + args.value[3..]
  }

  function SaveLine(r: Rule): string { Line(SaveTokens(r)) }

  /** No text of the rule holds a quote or ends the line. */
  predicate Clean(s: string) { '\'' !in s && '\n' !in s }

  predicate CleanRule(r: Rule) {
    && Clean(r.id) && Clean(r.comment) && Clean(r.source) && Clean(r.destination)
    && Clean(r.interfaceIn) && Clean(r.interfaceOut) && Clean(r.state)
    && (r.protocol.OtherProto? ==> Clean(r.protocol.text))
  }

  /** The rules that the round trip is about: those that printing for add accepts. */
  ghost predicate Canonical(r: Rule) {
    && ArgsOf(r, "add").Some?
    && CanonicalPorts(r.sourcePort) && CanonicalPorts(r.destinationPort)
    && CleanRule(r)
  }

  /** The protocol is set to some text. */
  predicate Named(r: Rule) { r.protocol != OtherProto("") }

  predicate CleanTokens(ts: seq<string>) {
    forall i :: 0 <= i < |ts| ==> ts[i] != "" && Clean(ts[i])
  }

  lemma {:induction false} JoinClean(parts: seq<string>, c: char)
    requires forall i :: 0 <= i < |parts| ==> Clean(parts[i])
    requires c != '\'' && c != '\n'
    ensures Clean(Join(parts, c))
  {
    if |parts| > 1 { JoinClean(parts[1..], c); }
  }

  lemma CleanPorts(p: string)
    requires CanonicalPorts(p)
    ensures Clean(Replace(p, '-', ':'))
  {
    var xs :| PortsOk(xs) && p == PortField(xs);
    ReplaceItems(xs);
    forall i | 0 <= i < |xs| ensures Clean(Items(xs, ':')[i]) {
      CleanItem(xs[i]);
    }
    JoinClean(Items(xs, ':'), ',');
  }

  lemma CleanItem(x: PortItem)
    ensures Clean(Item(x, ':'))
  {
  }

  lemma CleanConcat(xs: seq<string>, ys: seq<string>)
    requires CleanTokens(xs) && CleanTokens(ys)
    ensures CleanTokens(xs + ys)
  {
  }

  lemma CleanPortArgs(flag: string, multiFlag: string, p: string)
    requires CanonicalPorts(p) && CleanTokens([flag, multiFlag])
    ensures CleanTokens(PortArgs(flag, multiFlag, p))
  {
    var q := Replace(p, '-', ':');
    CleanPorts(p);
    assert flag == [flag, multiFlag][0] && multiFlag == [flag, multiFlag][1];
    if p != "" {
      CleanPair(flag, q);
      CleanPair("-m", "multiport");
      CleanPair(multiFlag, q);
      CleanConcat(["-m", "multiport"], [multiFlag, q]);
    }
  }

  lemma CleanFive(a: seq<string>, b: seq<string>, c: seq<string>, d: seq<string>, e: seq<string>)
    requires CleanTokens(a) && CleanTokens(b) && CleanTokens(c) && CleanTokens(d) && CleanTokens(e)
    ensures CleanTokens(a + (b + (c + (d + e))))
  {
    CleanConcat(d, e);
    CleanConcat(c, d + e);
    CleanConcat(b, c + (d + e));
    CleanConcat(a, b + (c + (d + e)));
  }

  lemma CleanPair(x: string, y: string)
    requires x != "" && y != "" && Clean(x) && Clean(y)
    ensures CleanTokens([x, y])
  {
  }

  lemma CleanField(flag: string, v: string)
    requires flag != "" && Clean(flag) && Clean(v)
    ensures CleanTokens(FieldArgs(flag, v))
  {
    if v != "" { CleanPair(flag, v); }
  }

  lemma CleanAddress(flag: string, a: string)
    requires flag != "" && Clean(flag) && Clean(a)
    ensures CleanTokens(AddressArgs(flag, a))
  {
    if a != "" { CleanPair(flag, a); }
  }

  lemma CleanState(v: string)
    requires Clean(v)
    ensures CleanTokens(StateArgs(v))
  {
    if v != "" {
      CleanPair("-m", "conntrack");
      CleanPair("--ctstate", v);
      CleanConcat(["-m", "conntrack"], ["--ctstate", v]);
      assert StateArgs(v) == ["-m", "conntrack"] + ["--ctstate", v];
    }
  }

  lemma CleanComment(r: Rule)
    requires Clean(r.id) && Clean(r.comment)
    ensures CleanTokens(["-m", "comment", "--comment", Comment(r)])
  {
    CleanPair("-m", "comment");
    CleanPair("--comment", Comment(r));
    CleanConcat(["-m", "comment"], ["--comment", Comment(r)]);
    assert ["-m", "comment", "--comment", Comment(r)] == ["-m", "comment"] + ["--comment", Comment(r)];
  }

  lemma CleanJump(a: Action)
    requires Target(a).Some?
    ensures CleanTokens(["-j", Target(a).value])
  {
  }

  /** The arguments behind the ports. */
  function LastArgs(r: Rule, target: string): seq<string> {
    FieldArgs("-i", r.interfaceIn)
    + (FieldArgs("-o", r.interfaceOut)
    + (StateArgs(r.state)
    + (["-m", "comment", "--comment", Comment(r)]
    + ["-j", target])))
  }

  lemma CleanLastArgs(r: Rule, target: string)
    requires CleanRule(r) && Target(r.action) == Some(target)
    ensures CleanTokens(LastArgs(r, target))
  {
    CleanField("-i", r.interfaceIn);
    CleanField("-o", r.interfaceOut);
    CleanState(r.state);
    CleanComment(r);
    CleanJump(r.action);
    CleanFive(FieldArgs("-i", r.interfaceIn), FieldArgs("-o", r.interfaceOut), StateArgs(r.state),
              ["-m", "comment", "--comment", Comment(r)], ["-j", target]);
  }

  lemma CleanPortFields(r: Rule)
    requires CanonicalPorts(r.sourcePort) && CanonicalPorts(r.destinationPort)
    ensures CleanTokens(PortArgs("--sport", "--sports", r.sourcePort))
    ensures CleanTokens(PortArgs("--dport", "--dports", r.destinationPort))
  {
    CleanPortArgs("--sport", "--sports", r.sourcePort);
    CleanPortArgs("--dport", "--dports", r.destinationPort);
  }

  lemma CleanProtocol(p: Protocol)
    requires p != OtherProto("") && (p.OtherProto? ==> Clean(p.text))
    ensures CleanTokens(ProtocolArgs(p))
  {
    if p.OtherProto? { CleanPair("-p", p.text); }
  }

  lemma CleanMatchArgs(r: Rule, target: string)
    requires Canonical(r) && Named(r) && Target(r.action) == Some(target)
    ensures CleanTokens(MatchArgs(r, target))
  {
    CleanProtocol(r.protocol);
    CleanAddress("-s", r.source);
    CleanAddress("-d", r.destination);
    CleanPortFields(r);
    CleanLastArgs(r, target);
    var ports, last := PortArgs("--dport", "--dports", r.destinationPort), LastArgs(r, target);
    CleanConcat(ports, last);
    CleanFive(ProtocolArgs(r.protocol), AddressArgs("-s", r.source), AddressArgs("-d", r.destination),
              PortArgs("--sport", "--sports", r.sourcePort), ports + last);
  }

  lemma {:induction false} JoinLast(parts: seq<string>, c: char)
    requires parts != [] && parts[|parts| - 1] != ""
    ensures var s := Join(parts, c); var t := parts[|parts| - 1];
      s != "" && s[|s| - 1] == t[|t| - 1]
  {
    if |parts| > 1 { JoinLast(parts[1..], c); }
  }

  lemma {:induction false} QuotedAt(ts: seq<string>)
    ensures |Quoted(ts)| == |ts|
    ensures forall i :: 0 <= i < |ts| ==> Quoted(ts)[i] == Quote(ts[i])
  {
    if ts != [] { QuotedAt(ts[1..]); }
  }

  /** The tokens of a save line, and the shape of its two ends. */
  lemma SaveLineShape(r: Rule) returns (target: string)
    requires Canonical(r)
    ensures Target(r.action) == Some(target)
    ensures SaveTokens(r) == ["-A", DirectionToChain(r.direction)] + MatchArgs(r, target)
    ensures |SaveTokens(r)| >= 3 && SaveTokens(r)[|SaveTokens(r)| - 1] == target
    ensures SaveTokens(r)[0] == "-A" && !r.direction.OtherDirection?
  {
    target := Target(r.action).value;
    var args := ArgsOf(r, "add").value;
    assert args == ["-I", DirectionToChain(r.direction), "1"] + MatchArgs(r, target);
    assert args[3..] == MatchArgs(r, target);
    MatchArgsEnd(r, target);
  }

  lemma MatchArgsEnd(r: Rule, target: string)
    ensures var a := MatchArgs(r, target); |a| >= 2 && a[|a| - 1] == target
  {
  }

  /** What tokenizing a save line yields: its tokens, but for an empty protocol text. */
  function ShownTokens(r: Rule, target: string): seq<string> {
    ["-A", DirectionToChain(r.direction)]
    + (if Named(r) then MatchArgs(r, target) else ["-p"] + MatchArgs(r.(protocol := AnyProto), target))
  }

  lemma CleanHead(d: Direction)
    requires !d.OtherDirection?
    ensures CleanTokens(["-A", DirectionToChain(d)])
  {
  }

  lemma UnnamedArgs(r: Rule, target: string)
    requires !Named(r)
    ensures MatchArgs(r, target) == ["-p", ""] + MatchArgs(r.(protocol := AnyProto), target)
  {
    var n := r.(protocol := AnyProto);
    assert MatchArgs(n, target) == [] + MatchArgs(n, target)[0..];
  }

  lemma VisibleClean(ts: seq<string>)
    requires CleanTokens(ts)
    ensures Visible(ts) == ts && forall i :: 0 <= i < |ts| ==> Clean(ts[i])
  {
    AllVisible(ts);
  }

  lemma SaveTokensShown(r: Rule, target: string)
    requires Canonical(r) && Target(r.action) == Some(target)
    requires SaveTokens(r) == ["-A", DirectionToChain(r.direction)] + MatchArgs(r, target)
    requires !r.direction.OtherDirection?
    ensures Visible(SaveTokens(r)) == ShownTokens(r, target)
    ensures forall i :: 0 <= i < |SaveTokens(r)| ==> Clean(SaveTokens(r)[i])
  {
    var head := ["-A", DirectionToChain(r.direction)];
    CleanHead(r.direction);
    VisibleClean(head);
    VisibleConcat(head, MatchArgs(r, target));
    if Named(r) {
      CleanMatchArgs(r, target);
      VisibleClean(MatchArgs(r, target));
    } else {
      var rest := MatchArgs(r.(protocol := AnyProto), target);
      CleanMatchArgs(r.(protocol := AnyProto), target);
      VisibleClean(rest);
      UnnamedArgs(r, target);
      VisibleConcat(["-p", ""], rest);
      assert Visible(["-p", ""]) == ["-p"];
    }
  }

  /** A text that neither starts nor ends with a space is its own trimming. */
  lemma NothingToTrim(s: string)
    requires s != "" && !IsSpace(s[0]) && !IsSpace(s[|s| - 1])
    ensures TrimSpace(s) == s
  {
  }

  lemma TargetEnds(t: string)
    requires t in {"ACCEPT", "REJECT", "DROP", "LOG"}
    ensures t != "" && !IsSpace(t[|t| - 1]) && Quote(t) == t
  {
  }

  /** The quoted tokens of a line that starts with -A and ends with a target. */
  lemma QuotedEnds(ts: seq<string>)
    requires |ts| >= 2 && ts[0] == "-A"
    requires ts[|ts| - 1] in {"ACCEPT", "REJECT", "DROP", "LOG"}
    ensures var qs := Quoted(ts); |qs| == |ts| && qs[0] == "-A" && qs[|qs| - 1] == ts[|ts| - 1]
  {
    QuotedAt(ts);
    TargetEnds(ts[|ts| - 1]);
  }

  lemma StartsWithAppend(s: string)
    requires "-A " <= s
    ensures s != "" && !IsSpace(s[0])
  {
    assert s[0] == "-A "[0];
  }

  /** A joined line that starts with -A and ends with a target. */
  lemma LineEnds(ts: seq<string>)
    requires |ts| >= 2 && ts[0] == "-A"
    requires ts[|ts| - 1] in {"ACCEPT", "REJECT", "DROP", "LOG"}
    ensures TrimSpace(Line(ts)) == Line(ts) && "-A " <= Line(ts)
  {
    QuotedEnds(ts);
    TargetEnds(ts[|ts| - 1]);
    JoinLast(Quoted(ts), ' ');
    HeadOfLine(Quoted(ts));
    StartsWithAppend(Line(ts));
    NothingToTrim(Line(ts));
  }

  lemma HeadOfLine(qs: seq<string>)
    requires |qs| >= 2 && qs[0] == "-A"
    ensures "-A " <= Join(qs, ' ')
  {
  }

  lemma CleanLineTokens(ts: seq<string>)
    requires |ts| >= 2 && ts[0] == "-A" && forall i :: 0 <= i < |ts| ==> Clean(ts[i])
    requires ts[|ts| - 1] in {"ACCEPT", "REJECT", "DROP", "LOG"}
    ensures Tokens(TrimSpace(Line(ts)), "", false) == Visible(ts) && "-A " <= TrimSpace(Line(ts))
  {
    TokenizeLine(ts);
    LineEnds(ts);
  }

  /** Tokenizing a save line. */
  lemma SaveLineTokens(r: Rule) returns (target: string)
    requires Canonical(r)
    ensures Target(r.action) == Some(target) && !r.direction.OtherDirection?
    ensures Tokens(TrimSpace(SaveLine(r)), "", false) == ShownTokens(r, target)
    ensures "-A " <= TrimSpace(SaveLine(r))
  {
    target := SaveLineShape(r);
    SaveTokensShown(r, target);
    TargetIsKnown(r.action);
    CleanLineTokens(SaveTokens(r));
  }

  lemma TargetIsKnown(a: Action)
    requires Target(a).Some?
    ensures Target(a).value in {"ACCEPT", "REJECT", "DROP", "LOG"}
  {
  }

  /** A line is read from its tokens. */
  lemma LineOfTokens(raw: string, f: seq<string>, fam: Family, priority: int)
    requires "-A " <= TrimSpace(raw) && f == Tokens(TrimSpace(raw), "", false) && |f| >= 3
    ensures LineDirection(raw) == ChainToDirection(f[1])
    ensures ChainToDirection(f[1]).Some? ==>
      LineRule(raw, fam, priority)
        == Finished(Options(f[2..], Draft(Blank(fam, ChainToDirection(f[1]).value, priority), "")))
  {
  }

  /** How the parser reads a save line. */
  lemma SaveLineRead(r: Rule, fam: Family, priority: int) returns (target: string)
    requires Canonical(r)
    ensures Target(r.action) == Some(target)
    ensures LineDirection(SaveLine(r)) == Some(r.direction)
    ensures LineRule(SaveLine(r), fam, priority)
      == Finished(Options(ShownTokens(r, target)[2..], Draft(Blank(fam, r.direction, priority), "")))
  {
    target := SaveLineTokens(r);
    var f := ShownTokens(r, target);
    MatchArgsEnd(if Named(r) then r else r.(protocol := AnyProto), target);
    ChainName(r.direction);
    DropTwo(["-A", DirectionToChain(r.direction)],
            if Named(r) then MatchArgs(r, target) else ["-p"] + MatchArgs(r.(protocol := AnyProto), target));
    LineOfTokens(SaveLine(r), f, fam, priority);
  }

  /** Once some protocol is read it stays read. */
  lemma {:induction false} ProtocolStays(f: seq<string>, d: Draft)
    requires !d.rule.protocol.OtherProto?
    ensures !Options(f, d).rule.protocol.OtherProto?
    decreases |f|
  {
    if f != [] {
      if FlagOf(f[0]) == NoFlag || |f| == 1 {
        ProtocolStays(f[1..], d);
      } else {
        ProtocolStays(f[2..], SetOption(d, FlagOf(f[0]), f[1]));
      }
    }
  }

  lemma NamedLineRoundTrip(r: Rule, fam: Family, priority: int)
    requires Canonical(r) && Named(r)
    ensures LineRule(SaveLine(r), fam, priority) == Some(ReadBack(r, fam, priority))
  {
    var target := SaveLineRead(r, fam, priority);
    var start := Draft(Blank(fam, r.direction, priority), "");
    assert ShownTokens(r, target)[2..] == MatchArgs(r, target);
    ReadMatchArgs(r, target, start);
    TargetNames(r.action);
  }

  lemma ProtocolTakesNext(v: string, rest: seq<string>, d: Draft)
    ensures !Options(["-p", v] + rest, d).rule.protocol.OtherProto?
  {
    FlagNames();
    OptionPair("-p", v, rest, d);
    ProtocolStays(rest, SetOption(d, ProtocolFlag, v));
  }

  lemma UnnamedTokens(r: Rule, target: string) returns (v: string, rest: seq<string>)
    requires !Named(r)
    ensures ShownTokens(r, target)[2..] == ["-p", v] + rest
  {
    var args := MatchArgs(r.(protocol := AnyProto), target);
    MatchArgsEnd(r.(protocol := AnyProto), target);
    v, rest := args[0], args[1..];
    DropTwo(["-A", DirectionToChain(r.direction)], ["-p"] + args);
    TakeNext("-p", args);
  }

  lemma DropTwo(head: seq<string>, rest: seq<string>)
    requires |head| == 2
    ensures (head + rest)[2..] == rest && (head + rest)[1] == head[1]
  {
  }

  lemma TakeNext(flag: string, args: seq<string>)
    requires args != []
    ensures [flag] + args == [flag, args[0]] + args[1..]
  {
  }

  /** An empty protocol text makes the parser take the next flag for the protocol. */
  lemma UnnamedLineReadsProtocol(r: Rule, fam: Family, priority: int)
    requires Canonical(r) && !Named(r)
    ensures var got := LineRule(SaveLine(r), fam, priority); got.Some? ==> !got.value.protocol.OtherProto?
  {
    var target := SaveLineRead(r, fam, priority);
    var v, rest := UnnamedTokens(r, target);
    ProtocolTakesNext(v, rest, Draft(Blank(fam, r.direction, priority), ""));
  }

  /**
    Printing a rule and reading the line gives back what printing keeps of it exactly when
    the rule has some protocol text.
   */
  lemma LineRoundTrip(r: Rule, fam: Family, priority: int)
    requires Canonical(r)
    ensures LineDirection(SaveLine(r)) == Some(r.direction)
    ensures LineRule(SaveLine(r), fam, priority) == Some(ReadBack(r, fam, priority)) <==> Named(r)
  {
    var target := SaveLineRead(r, fam, priority);
    if Named(r) {
      NamedLineRoundTrip(r, fam, priority);
    } else {
      UnnamedLineReadsProtocol(r, fam, priority);
    }
  }

  /** The protocol itself comes back exactly when it is one of the four that have a name of their own. */
  lemma ProtocolComesBack(r: Rule, fam: Family, priority: int)
    requires Canonical(r)
    ensures var got := LineRule(SaveLine(r), fam, priority);
      got.Some? && got.value.protocol == r.protocol <==> r.protocol in {Tcp, Udp, Icmp, Custom}
  {
    if Named(r) {
      NamedLineRoundTrip(r, fam, priority);
    } else {
      UnnamedLineReadsProtocol(r, fam, priority);
    }
  }

  /** A protocol that the builder prints as it is and the parser does not know comes back as custom. */
  lemma UnknownProtocolIsLost(fam: Family, priority: int) returns (r: Rule)
    ensures Canonical(r) && r.protocol == OtherProto("sctp")
    ensures LineRule(SaveLine(r), fam, priority) == Some(ReadBack(r, fam, priority))
    ensures ReadBack(r, fam, priority).protocol == Custom
  {
    r := Bare(fam, OtherProto("sctp"), priority);
    BareIsCanonical(fam, OtherProto("sctp"), priority);
    SctpIsCustom();
    NamedLineRoundTrip(r, fam, priority);
  }

  lemma SctpIsCustom()
    ensures ProtoOf("sctp") == Custom
  {
    LowerStays("sctp");
  }

  /** A rule that selects by protocol only. */
  function Bare(fam: Family, p: Protocol, priority: int): Rule {
    Rule("", fam, In, Allow, p, "", "", "", "", "", "", "", "", true, priority)
  }

  lemma BareIsCanonical(fam: Family, p: Protocol, priority: int)
    requires p.OtherProto? ==> Clean(p.text)
    ensures Canonical(Bare(fam, p, priority))
  {
    assert PortsOk([]) && PortField([]) == "";
  }

  /** Reading the target gives the action back, deny as drop. */
  lemma TargetNames(a: Action)
    requires Target(a).Some?
    ensures TargetAction(Target(a).value) == Some(if a == Deny then Drop else a)
  {
  }

  lemma ChainName(d: Direction)
    requires !d.OtherDirection?
    ensures ChainToDirection(DirectionToChain(d)) == Some(d)
  {
    UpperStays(DirectionToChain(d));
  }

  function SaveLines(rs: seq<Rule>): (ls: seq<string>)
    ensures |ls| == |rs|
  {
    if rs == [] then [] else [SaveLine(rs[0])] + SaveLines(rs[1..])
  }

  lemma {:induction false} SaveLinesAt(rs: seq<Rule>, i: nat)
    requires i < |rs|
    ensures SaveLines(rs)[i] == SaveLine(rs[i])
  {
    if i > 0 { SaveLinesAt(rs[1..], i - 1); }
  }

  function ReadAllBack(rs: seq<Rule>, fam: Family, priority: int): (out: seq<Rule>)
    ensures |out| == |rs|
  {
    if rs == [] then [] else [ReadBack(rs[0], fam, priority)] + ReadAllBack(rs[1..], fam, priority + 1)
  }

  predicate AllNamed(rs: seq<Rule>) { rs == [] || (Named(rs[0]) && AllNamed(rs[1..])) }

  lemma {:induction false} NoMoreRulesThanLines(lines: seq<string>, fam: Family, priority: int)
    ensures |ParseLines(lines, fam, priority)| <= |lines|
    decreases |lines|
  {
    if lines != [] {
      NoMoreRulesThanLines(lines[1..], fam, priority);
      NoMoreRulesThanLines(lines[1..], fam, priority + 1);
    }
  }

  /** Equality of two lists whose tails are no longer on the left, taken apart. */
  lemma SameLists(x: Option<Rule>, xs: seq<Rule>, y: Rule, ys: seq<Rule>)
    requires |xs| <= |ys|
    ensures (if x.Some? then [x.value] else []) + xs == [y] + ys <==> x == Some(y) && xs == ys
  {
    var left, right := (if x.Some? then [x.value] else []) + xs, [y] + ys;
    if left == right {
      assert x.Some?;
      assert left[0] == right[0] && left[1..] == xs && right[1..] == ys;
    }
  }

  lemma {:induction false} LinesRoundTrip(rs: seq<Rule>, fam: Family, priority: int)
    requires forall i :: 0 <= i < |rs| ==> Canonical(rs[i])
    ensures ParseLines(SaveLines(rs), fam, priority) == ReadAllBack(rs, fam, priority) <==> AllNamed(rs)
    decreases |rs|
  {
    if rs != [] {
      LineRoundTrip(rs[0], fam, priority);
      LinesRoundTrip(rs[1..], fam, priority + 1);
      assert SaveLines(rs)[1..] == SaveLines(rs[1..]);
      var more := ParseLines(SaveLines(rs[1..]), fam, priority + 1);
      NoMoreRulesThanLines(SaveLines(rs[1..]), fam, priority + 1);
      SameLists(LineRule(SaveLine(rs[0]), fam, priority), more,
                ReadBack(rs[0], fam, priority), ReadAllBack(rs[1..], fam, priority + 1));
    }
  }

  lemma SaveLineIsOneLine(r: Rule)
    requires Canonical(r)
    ensures '\n' !in SaveLine(r)
  {
    var target := SaveLineShape(r);
    SaveTokensShown(r, target);
    CleanLineIsOneLine(SaveTokens(r));
  }

  lemma CleanLineIsOneLine(ts: seq<string>)
    requires forall i :: 0 <= i < |ts| ==> Clean(ts[i])
    ensures '\n' !in Line(ts)
  {
    QuotedAt(ts);
    NoNewline(Quoted(ts));
  }

  lemma {:induction false} NoNewline(parts: seq<string>)
    requires forall i :: 0 <= i < |parts| ==> '\n' !in parts[i]
    ensures '\n' !in Join(parts, ' ')
  {
    if |parts| > 1 { NoNewline(parts[1..]); }
  }

  /**
    A whole save text of printed rules parses to the rules in order, numbered by priority,
    exactly when every one of them has some protocol text.
   */
  lemma SaveRoundTrip(rs: seq<Rule>, fam: Family)
    requires rs != [] && forall i :: 0 <= i < |rs| ==> Canonical(rs[i])
    ensures Parse(Join(SaveLines(rs), '\n'), fam) == ReadAllBack(rs, fam, 0) <==> AllNamed(rs)
  {
    forall i | 0 <= i < |rs| ensures '\n' !in SaveLines(rs)[i] {
      SaveLinesAt(rs, i);
      SaveLineIsOneLine(rs[i]);
    }
    SplitJoin(SaveLines(rs), '\n');
    LinesRoundTrip(rs, fam, 0);
  }
}

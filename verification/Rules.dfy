/**
  Normalized rules, the engine's selector comparison, and what rules mean: which packets a
  rule matches and which verdict an ordered list gives a packet.
 */
module Rules {
  import opened Basics
  import opened Addresses
  import Text

  datatype Family = IPv4 | IPv6 | Both | OtherFamily(text: string)
  datatype Direction = In | Out | Forward | OtherDirection(text: string)
  datatype Action = Allow | Deny | Reject | Drop | Log | OtherAction(text: string)
  datatype Protocol = AnyProto | Tcp | Udp | Icmp | Custom | OtherProto(text: string)

  datatype Rule = Rule(
    id: string,
    family: Family,
    direction: Direction,
    action: Action,
    protocol: Protocol,
    source: string,
    sourcePort: string,
    destination: string,
    destinationPort: string,
    interfaceIn: string,
    interfaceOut: string,
    state: string,
    comment: string,
    enabled: bool,
    priority: int)

  // ---------- the engine's comparisons ----------

  /** sameMatch: every selector field is equal; the actions may differ. */
  predicate SameMatch(a: Rule, b: Rule) {
    && a.family == b.family && a.direction == b.direction && a.protocol == b.protocol
    && a.source == b.source && a.sourcePort == b.sourcePort
    && a.destination == b.destination && a.destinationPort == b.destinationPort
    && a.interfaceIn == b.interfaceIn && a.interfaceOut == b.interfaceOut
    && a.state == b.state
  }

  predicate SameRule(a: Rule, b: Rule) { SameMatch(a, b) && a.action == b.action }

  predicate FamilySubset(sub: Family, super: Family) { sub == super || super == Both }

  predicate ProtoSubset(sub: Protocol, super: Protocol) { sub == super || super == AnyProto }

  predicate PortSubset(sub0: string, super0: string) {
    var sub, super := NormalizeEmpty(sub0), NormalizeEmpty(super0);
    if super == "" then true
    else if sub == "" then false
    else if sub == super then true
    else
      var x, y := Text.ParseRange(sub), Text.ParseRange(super);
      x.ok && y.ok && x.lo >= y.lo && x.hi <= y.hi
  }

  /** matchSubset, including its early exit before the outgoing interface is compared. */
  predicate MatchSubset(net: Net, sub: Rule, super: Rule)
    requires NetOk(net)
  {
    if sub.direction != super.direction then false
    else if !FamilySubset(sub.family, super.family) then false
    else if !ProtoSubset(sub.protocol, super.protocol) then false
    else if !AddrSubset(net, sub.source, super.source) then false
    else if !AddrSubset(net, sub.destination, super.destination) then false
    else if !PortSubset(sub.sourcePort, super.sourcePort) then false
    else if !PortSubset(sub.destinationPort, super.destinationPort) then false
    else if super.interfaceIn != "" && super.interfaceIn != sub.interfaceIn then false
    else if sub.interfaceIn != "" && super.interfaceIn == "" then true
    else super.interfaceOut == "" || super.interfaceOut == sub.interfaceOut
  }

  predicate Shadows(net: Net, a: Rule, b: Rule)
    requires NetOk(net)
  {
    a.action != Log && MatchSubset(net, b, a)
  }

  /** portIntersects: the bounds are compared even when a text did not parse. */
  predicate PortIntersects(a0: string, b0: string) {
    var a, b := NormalizeEmpty(a0), NormalizeEmpty(b0);
    if a == "" || b == "" then true
    else
      var x, y := Text.ParseRange(a), Text.ParseRange(b);
      x.lo <= y.hi && y.lo <= x.hi
  }

  // ---------- what rules match ----------

  datatype Packet = Packet(
    v6: bool,
    direction: Direction,
    protocol: Protocol,
    source: Ip,
    sourcePort: int,
    destination: Ip,
    destinationPort: int,
    interfaceIn: string,
    interfaceOut: string,
    state: string)

  predicate PacketOk(p: Packet) {
    IpOk(p.source) && IpOk(p.destination) && p.source.v6 == p.v6 && p.destination.v6 == p.v6
  }

  /** How texts match that the engine only ever compares for equality. */
  datatype World = World(
    net: Net,
    address: (string, Ip) -> bool,
    ports: (string, int) -> bool,
    states: (string, string) -> bool)

  predicate FamilyMatches(f: Family, v6: bool) {
    match f
    case IPv4 => !v6
    case IPv6 => v6
    case Both => true
    case OtherFamily(_) => false
  }

  predicate PortMatches(w: World, spec: string, port: int) {
    if NormalizeEmpty(spec) == "" then true
    else
      var r := Text.ParseRange(spec);
      if r.ok then InRange(r, port) else w.ports(spec, port)
  }

  predicate StateMatches(w: World, spec: string, state: string) { spec == "" || w.states(spec, state) }

  predicate NameMatches(spec: string, name: string) { spec == "" || spec == name }

  predicate Matches(w: World, r: Rule, p: Packet)
    requires NetOk(w.net) && PacketOk(p)
  {
    && r.direction == p.direction
    && FamilyMatches(r.family, p.v6)
    && (r.protocol == AnyProto || r.protocol == p.protocol)
    && AddrMatches(w.net, w.address, r.source, p.source)
    && AddrMatches(w.net, w.address, r.destination, p.destination)
    && PortMatches(w, r.sourcePort, p.sourcePort)
    && PortMatches(w, r.destinationPort, p.destinationPort)
    && NameMatches(r.interfaceIn, p.interfaceIn)
    && NameMatches(r.interfaceOut, p.interfaceOut)
    && StateMatches(w, r.state, p.state)
  }

  /** The action of the first rule that matches and terminates; None is the chain's default. */
  function Verdict(w: World, rules: seq<Rule>, p: Packet): Option<Action>
    requires NetOk(w.net) && PacketOk(p)
  {
    if rules == [] then None
    else if rules[0].action != Log && Matches(w, rules[0], p) then Some(rules[0].action)
    else Verdict(w, rules[1..], p)
  }

  // ---------- what the subset test means ----------

  lemma PortSubsetSound(w: World, sub: string, super: string, port: int)
    requires PortSubset(sub, super) && PortMatches(w, sub, port)
    ensures PortMatches(w, super, port)
  {
  }

  /**
    On a packet that sub matches, a true subset test leaves exactly four selectors of super
    in doubt: the two addresses, the outgoing interface and the connection state.
   */
  lemma SubsetTestLeavesFour(w: World, sub: Rule, super: Rule, p: Packet)
    requires NetOk(w.net) && PacketOk(p)
    requires MatchSubset(w.net, sub, super) && Matches(w, sub, p)
    ensures Matches(w, super, p) <==>
      && AddrMatches(w.net, w.address, super.source, p.source)
      && AddrMatches(w.net, w.address, super.destination, p.destination)
      && NameMatches(super.interfaceOut, p.interfaceOut)
      && StateMatches(w, super.state, p.state)
  {
    PortSubsetSound(w, sub.sourcePort, super.sourcePort, p.sourcePort);
    PortSubsetSound(w, sub.destinationPort, super.destinationPort, p.destinationPort);
  }

  /** Packets of the family can carry an address that matches the text. */
  predicate SpecCanBe(net: Net, spec: string, v6: bool)
    requires NetOk(net)
  {
    Denotes(net, spec).Block? ==> Denotes(net, spec).cidr.ip.v6 == v6
  }

  /** Packets of the family can match the rule, as far as family and addresses go. */
  predicate CanBe(net: Net, r: Rule, v6: bool)
    requires NetOk(net)
  {
    FamilyMatches(r.family, v6) && SpecCanBe(net, r.source, v6) && SpecCanBe(net, r.destination, v6)
  }

  /** Some port number matches the text. */
  predicate PortCanBe(spec: string) {
    NormalizeEmpty(spec) == "" || (Text.ParseRange(spec).ok ==> Text.ParseRange(spec).lo <= Text.ParseRange(spec).hi)
  }

  /** Some packet matches the rule, in a world that reads the opaque texts kindly. */
  predicate CanMatch(net: Net, r: Rule)
    requires NetOk(net)
  {
    (CanBe(net, r, false) || CanBe(net, r, true)) && PortCanBe(r.sourcePort) && PortCanBe(r.destinationPort)
  }

  /**
    The address text `super` of a rule that passed the subset test takes in every address
    that sub's packets can have there: its prefix is no longer, or it is the default route
    of the only family that sub's packets can have.
   */
  predicate AddrExact(net: Net, sub: Rule, subSpec: string, super: string)
    requires NetOk(net)
  {
    match (Denotes(net, super), Denotes(net, subSpec))
    case (Block(c), Block(d)) => c.len <= d.len && c.ip.v6 == d.ip.v6
    case (Block(c), _) => !CanBe(net, sub, !c.ip.v6)
    case _ => true
  }

  /** What matchSubset does not look at, checked on the two rules. */
  predicate Exact(net: Net, sub: Rule, super: Rule)
    requires NetOk(net)
  {
    && AddrExact(net, sub, sub.source, super.source)
    && AddrExact(net, sub, sub.destination, super.destination)
    && (super.interfaceOut == "" || super.interfaceOut == sub.interfaceOut)
    && (super.state == "" || super.state == sub.state)
  }

  /** Every packet that sub matches is matched by super, however opaque texts are read. */
  ghost predicate Contained(net: Net, sub: Rule, super: Rule)
    requires NetOk(net)
  {
    forall w: World, p :: w.net == net && PacketOk(p) && Matches(w, sub, p) ==> Matches(w, super, p)
  }

  lemma AddressSound(w: World, sub: Rule, subSpec: string, super: string, x: Ip)
    requires NetOk(w.net) && IpOk(x) && CanBe(w.net, sub, x.v6)
    requires AddrSubset(w.net, subSpec, super) && AddrExact(w.net, sub, subSpec, super)
    requires AddrMatches(w.net, w.address, subSpec, x)
    ensures AddrMatches(w.net, w.address, super, x)
  {
  }

  lemma MatchedCanBe(w: World, r: Rule, p: Packet)
    requires NetOk(w.net) && PacketOk(p) && Matches(w, r, p)
    ensures CanBe(w.net, r, p.v6) && PortCanBe(r.sourcePort) && PortCanBe(r.destinationPort)
  {
  }

  /** With the exact condition, every packet that sub matches is matched by super. */
  lemma SubsetTestSound(w: World, sub: Rule, super: Rule, p: Packet)
    requires NetOk(w.net) && PacketOk(p)
    requires MatchSubset(w.net, sub, super) && Exact(w.net, sub, super)
    requires Matches(w, sub, p)
    ensures Matches(w, super, p)
  {
    SubsetTestLeavesFour(w, sub, super, p);
    MatchedCanBe(w, sub, p);
    AddressSound(w, sub, sub.source, super.source, p.source);
    AddressSound(w, sub, sub.destination, super.destination, p.destination);
  }

  // ---------- packets that escape ----------

  /** Every address matches a text that does not parse. */
  function Kindly(): (string, Ip) -> bool { (t, x) => true }

  /** An address of the family that matches the text. */
  function SomeAddress(net: Net, spec: string, v6: bool): (x: Ip)
    requires NetOk(net) && SpecCanBe(net, spec, v6)
    ensures IpOk(x) && x.v6 == v6
    ensures AddrMatches(net, Kindly(), spec, x)
  {
    match Denotes(net, spec)
    case Block(c) => c.ip
    case _ => Ip(v6, seq(Width(v6), i => false))
  }

  function SomeNumber(spec: string): int {
    if NormalizeEmpty(spec) == "" || !Text.ParseRange(spec).ok then 1 else Text.ParseRange(spec).lo
  }

  /** A world that reads opaque addresses and ports kindly, and of the states only the one given. */
  function Kind(net: Net, state: string): World {
    World(net, Kindly(), (t, n) => true, (t, s) => t == state)
  }

  /** A packet of the family that matches the rule; it leaves by `out` if the rule lets it choose. */
  function Sample(net: Net, r: Rule, v6: bool, out: string): Packet
    requires NetOk(net) && CanBe(net, r, v6)
  {
    Packet(v6, r.direction, r.protocol, SomeAddress(net, r.source, v6), SomeNumber(r.sourcePort),
           SomeAddress(net, r.destination, v6), SomeNumber(r.destinationPort), r.interfaceIn,
           if r.interfaceOut != "" then r.interfaceOut else out, r.state)
  }

  lemma SampleMatches(net: Net, r: Rule, v6: bool, out: string)
    requires NetOk(net) && CanBe(net, r, v6) && PortCanBe(r.sourcePort) && PortCanBe(r.destinationPort)
    ensures PacketOk(Sample(net, r, v6, out)) && Matches(Kind(net, r.state), r, Sample(net, r, v6, out))
  {
    assert AddrMatches(net, Kindly(), r.source, SomeAddress(net, r.source, v6));
    assert AddrMatches(net, Kindly(), r.destination, SomeAddress(net, r.destination, v6));
  }

  /** A rule that can match does match some packet, and the other way round. */
  lemma CanMatchExact(net: Net, r: Rule)
    requires NetOk(net)
    ensures CanMatch(net, r) <==> exists w: World, p :: w.net == net && PacketOk(p) && Matches(w, r, p)
  {
    if CanMatch(net, r) {
      var v6 := CanBe(net, r, true);
      SampleMatches(net, r, v6, "");
      assert Kind(net, r.state).net == net;
    }
    if w: World, p :| w.net == net && PacketOk(p) && Matches(w, r, p) {
      MatchedCanBe(w, r, p);
    }
  }

  /** An address that matches the text and is not in the block, when the exact condition fails. */
  lemma AddressEscapes(net: Net, sub: Rule, subSpec: string, super: string, v6: bool) returns (x: Ip)
    requires NetOk(net) && CanBe(net, sub, v6) && SpecCanBe(net, subSpec, v6)
    requires subSpec == sub.source || subSpec == sub.destination
    requires !AddrExact(net, sub, subSpec, super)
    ensures IpOk(x) && CanBe(net, sub, x.v6) && AddrMatches(net, Kindly(), subSpec, x)
    ensures !AddrMatches(net, Kindly(), super, x)
  {
    var c := Denotes(net, super).cidr;
    if Denotes(net, subSpec).Block? {
      x := BlockEscapes(c, Denotes(net, subSpec).cidr);
    } else {
      x := SomeAddress(net, subSpec, !c.ip.v6);
    }
  }

  /** Without the exact condition some packet of sub escapes super. */
  lemma SomePacketEscapes(net: Net, sub: Rule, super: Rule) returns (w: World, p: Packet)
    requires NetOk(net) && CanMatch(net, sub) && !Exact(net, sub, super)
    ensures w.net == net && PacketOk(p) && Matches(w, sub, p) && !Matches(w, super, p)
  {
    var v6 := CanBe(net, sub, true);
    w := Kind(net, sub.state);
    if !AddrExact(net, sub, sub.source, super.source) {
      var x := AddressEscapes(net, sub, sub.source, super.source, v6);
      SampleMatches(net, sub, x.v6, "");
      p := Sample(net, sub, x.v6, "").(source := x);
    } else if !AddrExact(net, sub, sub.destination, super.destination) {
      var x := AddressEscapes(net, sub, sub.destination, super.destination, v6);
      SampleMatches(net, sub, x.v6, "");
      p := Sample(net, sub, x.v6, "").(destination := x);
    } else {
      SampleMatches(net, sub, v6, super.interfaceOut + "x");
      p := Sample(net, sub, v6, super.interfaceOut + "x");
    }
  }

  /**
    When the subset test holds, every packet of sub is matched by super exactly when sub
    matches nothing at all or the two rules meet the exact condition.
   */
  lemma SubsetTestExact(net: Net, sub: Rule, super: Rule)
    requires NetOk(net) && MatchSubset(net, sub, super)
    ensures Contained(net, sub, super) <==> !CanMatch(net, sub) || Exact(net, sub, super)
  {
    CanMatchExact(net, sub);
    if Exact(net, sub, super) {
      forall w: World, p | w.net == net && PacketOk(p) && Matches(w, sub, p) ensures Matches(w, super, p) {
        SubsetTestSound(w, sub, super, p);
      }
    } else if CanMatch(net, sub) {
      var w, p := SomePacketEscapes(net, sub, super);
    }
  }
  // ---------- the subset test misses nothing ----------

  /** A world that reads opaque texts kindly, but for one address and one port, and one state only. */
  function Except(net: Net, state: string, t: string, x: Ip, u: string, n: int): World {
    World(net, (s, y) => s != t || y != x, (s, k) => s != u || k != n, (s, st) => s == state)
  }

  /** An address of the family that matches the text; where any would do, it is not x. */
  function OtherAddress(net: Net, spec: string, v6: bool, x: Ip): (y: Ip)
    requires NetOk(net) && SpecCanBe(net, spec, v6) && IpOk(x)
    ensures IpOk(y) && y.v6 == v6 && (Denotes(net, spec).Block? || y != x)
  {
    match Denotes(net, spec)
    case Block(c) => c.ip
    case _ =>
      var zero := Ip(v6, seq(Width(v6), i => false));
      if zero == x then Flip(zero, 0) else zero
  }

  /** A number that matches the port text; where any would do, it is not n. */
  function OtherNumber(spec: string, n: int): int {
    if NormalizeEmpty(spec) == "" || !Text.ParseRange(spec).ok then n + 1 else Text.ParseRange(spec).lo
  }

  /** An address of sub's packets that the address text of super does not match. */
  lemma AddressMissed(net: Net, spec: string, super: string, v6: bool) returns (x: Ip)
    requires NetOk(net) && SpecCanBe(net, spec, v6)
    requires Canonical(net, spec, super) && !AddrSubset(net, spec, super)
    ensures IpOk(x) && x.v6 == v6
    ensures var w := Except(net, "", super, x, "", 0);
      AddrMatches(net, w.address, spec, x) && !AddrMatches(net, w.address, super, x)
  {
    match (Denotes(net, super), Denotes(net, spec))
    case (Block(c), Block(d)) =>
      if forall y :: IpOk(y) && Contains(d, y) ==> Contains(c, y) {
        BlockWithin(net, spec, super, d, c);
      }
      x :| IpOk(x) && Contains(d, x) && !Contains(c, x);
    case (Block(c), _) =>
      x := if c.ip.v6 == v6 then Flip(c.ip, 0) else SomeAddress(net, spec, v6);
    case _ =>
      x := SomeAddress(net, spec, v6);
  }

  /** A port of sub's packets that the port text of super does not match. */
  function MissedPort(spec: string, super: string): int {
    var r, q := Text.ParseRange(spec), Text.ParseRange(super);
    if !q.ok then SomeNumber(spec)
    else if NormalizeEmpty(spec) == "" || !r.ok then q.hi + 1
    else if r.lo < q.lo then r.lo
    else r.hi
  }

  lemma PortMissed(w: World, spec: string, super: string)
    requires PortCanBe(spec) && !PortSubset(spec, super)
    requires forall s, k :: w.ports(s, k) <==> s != super || k != MissedPort(spec, super)
    ensures PortMatches(w, spec, MissedPort(spec, super)) && !PortMatches(w, super, MissedPort(spec, super))
  {
  }

  lemma OtherNumberMatches(w: World, spec: string, super: string, n: int)
    requires PortCanBe(spec) && forall s, k :: w.ports(s, k) <==> s != super || k != n
    ensures PortMatches(w, spec, OtherNumber(spec, n))
  {
  }

  /** A packet that matches the rule in all but what is given. */
  function Probe(r: Rule, x: Ip, y: Ip, n: int, k: int, inward: string, outward: string): Packet {
    Packet(x.v6, r.direction, r.protocol, x, n, y, k,
           if r.interfaceIn != "" then r.interfaceIn else inward,
           if r.interfaceOut != "" then r.interfaceOut else outward, r.state)
  }

  lemma ProbeMatches(w: World, r: Rule, x: Ip, y: Ip, n: int, k: int, inward: string, outward: string)
    requires NetOk(w.net) && IpOk(x) && IpOk(y) && x.v6 == y.v6 && FamilyMatches(r.family, x.v6)
    requires AddrMatches(w.net, w.address, r.source, x) && AddrMatches(w.net, w.address, r.destination, y)
    requires PortMatches(w, r.sourcePort, n) && PortMatches(w, r.destinationPort, k)
    requires w.states(r.state, r.state)
    ensures PacketOk(Probe(r, x, y, n, k, inward, outward))
    ensures Matches(w, r, Probe(r, x, y, n, k, inward, outward))
  {
  }

  lemma AddressesMatch(w: World, r: Rule, v6: bool)
    requires NetOk(w.net) && CanBe(w.net, r, v6)
    requires forall s, y :: s != "" ==> w.address(s, y)
    ensures AddrMatches(w.net, w.address, r.source, SomeAddress(w.net, r.source, v6))
    ensures AddrMatches(w.net, w.address, r.destination, SomeAddress(w.net, r.destination, v6))
  {
  }

  /** The other address field of sub still matches when one address is read unkindly. */
  lemma OtherAddressMatches(w: World, spec: string, super: string, v6: bool, x: Ip)
    requires NetOk(w.net) && SpecCanBe(w.net, spec, v6) && IpOk(x)
    requires forall s, y :: w.address(s, y) <==> s != super || y != x
    ensures AddrMatches(w.net, w.address, spec, OtherAddress(w.net, spec, v6, x))
  {
  }

  lemma NumbersMatch(w: World, r: Rule)
    requires PortCanBe(r.sourcePort) && PortCanBe(r.destinationPort)
    requires forall s, k :: s != "" ==> w.ports(s, k)
    ensures PortMatches(w, r.sourcePort, SomeNumber(r.sourcePort))
    ensures PortMatches(w, r.destinationPort, SomeNumber(r.destinationPort))
  {
  }

  lemma SourceMissed(net: Net, sub: Rule, super: Rule, v6: bool) returns (w: World, p: Packet)
    requires NetOk(net) && CanMatch(net, sub) && CanBe(net, sub, v6)
    requires Canonical(net, sub.source, super.source) && !AddrSubset(net, sub.source, super.source)
    ensures w.net == net && PacketOk(p) && Matches(w, sub, p) && !Matches(w, super, p)
  {
    var x := AddressMissed(net, sub.source, super.source, v6);
    var y := OtherAddress(net, sub.destination, v6, x);
    w := Except(net, sub.state, super.source, x, "", 0);
    OtherAddressMatches(w, sub.destination, super.source, v6, x);
    NumbersMatch(w, sub);
    ProbeMatches(w, sub, x, y, SomeNumber(sub.sourcePort), SomeNumber(sub.destinationPort), "", "");
    p := Probe(sub, x, y, SomeNumber(sub.sourcePort), SomeNumber(sub.destinationPort), "", "");
  }

  lemma DestinationMissed(net: Net, sub: Rule, super: Rule, v6: bool) returns (w: World, p: Packet)
    requires NetOk(net) && CanMatch(net, sub) && CanBe(net, sub, v6)
    requires Canonical(net, sub.destination, super.destination) && !AddrSubset(net, sub.destination, super.destination)
    ensures w.net == net && PacketOk(p) && Matches(w, sub, p) && !Matches(w, super, p)
  {
    var x := AddressMissed(net, sub.destination, super.destination, v6);
    var y := OtherAddress(net, sub.source, v6, x);
    w := Except(net, sub.state, super.destination, x, "", 0);
    OtherAddressMatches(w, sub.source, super.destination, v6, x);
    NumbersMatch(w, sub);
    ProbeMatches(w, sub, y, x, SomeNumber(sub.sourcePort), SomeNumber(sub.destinationPort), "", "");
    p := Probe(sub, y, x, SomeNumber(sub.sourcePort), SomeNumber(sub.destinationPort), "", "");
  }

  lemma SourcePortMissed(net: Net, sub: Rule, super: Rule, v6: bool) returns (w: World, p: Packet)
    requires NetOk(net) && CanMatch(net, sub) && CanBe(net, sub, v6)
    requires !PortSubset(sub.sourcePort, super.sourcePort)
    ensures w.net == net && PacketOk(p) && Matches(w, sub, p) && !Matches(w, super, p)
  {
    var n := MissedPort(sub.sourcePort, super.sourcePort);
    var x, y := SomeAddress(net, sub.source, v6), SomeAddress(net, sub.destination, v6);
    var k := OtherNumber(sub.destinationPort, n);
    w := Except(net, sub.state, "", x, super.sourcePort, n);
    AddressesMatch(w, sub, v6);
    PortMissed(w, sub.sourcePort, super.sourcePort);
    OtherNumberMatches(w, sub.destinationPort, super.sourcePort, n);
    ProbeMatches(w, sub, x, y, n, k, "", "");
    p := Probe(sub, x, y, n, k, "", "");
    PortFails(w, super, p);
  }

  lemma PortFails(w: World, r: Rule, p: Packet)
    requires NetOk(w.net) && PacketOk(p)
    requires !PortMatches(w, r.sourcePort, p.sourcePort) || !PortMatches(w, r.destinationPort, p.destinationPort)
    ensures !Matches(w, r, p)
  {
  }

  lemma DestinationPortMissed(net: Net, sub: Rule, super: Rule, v6: bool) returns (w: World, p: Packet)
    requires NetOk(net) && CanMatch(net, sub) && CanBe(net, sub, v6)
    requires !PortSubset(sub.destinationPort, super.destinationPort)
    ensures w.net == net && PacketOk(p) && Matches(w, sub, p) && !Matches(w, super, p)
  {
    var n := MissedPort(sub.destinationPort, super.destinationPort);
    var x, y := SomeAddress(net, sub.source, v6), SomeAddress(net, sub.destination, v6);
    var k := OtherNumber(sub.sourcePort, n);
    w := Except(net, sub.state, "", x, super.destinationPort, n);
    AddressesMatch(w, sub, v6);
    PortMissed(w, sub.destinationPort, super.destinationPort);
    OtherNumberMatches(w, sub.sourcePort, super.destinationPort, n);
    ProbeMatches(w, sub, x, y, k, n, "", "");
    p := Probe(sub, x, y, k, n, "", "");
    PortFails(w, super, p);
  }

  /** Direction, protocol or an interface of super is not met by some packet of sub. */
  lemma PlainFieldMissed(net: Net, sub: Rule, super: Rule, v6: bool) returns (w: World, p: Packet)
    requires NetOk(net) && CanMatch(net, sub) && CanBe(net, sub, v6)
    requires
      || sub.direction != super.direction
      || !ProtoSubset(sub.protocol, super.protocol)
      || (super.interfaceIn != "" && super.interfaceIn != sub.interfaceIn)
      || (super.interfaceOut != "" && super.interfaceOut != sub.interfaceOut)
    ensures w.net == net && PacketOk(p) && Matches(w, sub, p) && !Matches(w, super, p)
  {
    var x, y := SomeAddress(net, sub.source, v6), SomeAddress(net, sub.destination, v6);
    w := Kind(net, sub.state);
    p := Probe(sub, x, y, SomeNumber(sub.sourcePort), SomeNumber(sub.destinationPort),
               super.interfaceIn + "x", super.interfaceOut + "x");
  }

  /** Every packet of sub is matched by super, so the test fails on no field but the family. */
  lemma ContainedPassesTest(net: Net, sub: Rule, super: Rule)
    requires NetOk(net) && CanMatch(net, sub) && Contained(net, sub, super)
    requires Canonical(net, sub.source, super.source) && Canonical(net, sub.destination, super.destination)
    ensures MatchSubset(net, sub, super) <==> FamilySubset(sub.family, super.family)
  {
    if FamilySubset(sub.family, super.family) && !MatchSubset(net, sub, super) {
      var v6 := CanBe(net, sub, true);
      var w: World, p: Packet;
      if !AddrSubset(net, sub.source, super.source) {
        w, p := SourceMissed(net, sub, super, v6);
      } else if !AddrSubset(net, sub.destination, super.destination) {
        w, p := DestinationMissed(net, sub, super, v6);
      } else if !PortSubset(sub.sourcePort, super.sourcePort) {
        w, p := SourcePortMissed(net, sub, super, v6);
      } else if !PortSubset(sub.destinationPort, super.destinationPort) {
        w, p := DestinationPortMissed(net, sub, super, v6);
      } else {
        w, p := PlainFieldMissed(net, sub, super, v6);
      }
    }
  }

  /**
    For rules whose addresses are written in the one way that the engine compares, and a sub
    rule that can match, the test and the exact condition together are containment, as far
    as the families of the two rules are comparable.
   */
  lemma SubsetIsContainment(net: Net, sub: Rule, super: Rule)
    requires NetOk(net) && CanMatch(net, sub)
    requires Canonical(net, sub.source, super.source) && Canonical(net, sub.destination, super.destination)
    ensures MatchSubset(net, sub, super) && Exact(net, sub, super) <==>
      Contained(net, sub, super) && FamilySubset(sub.family, super.family)
  {
    if Contained(net, sub, super) { ContainedPassesTest(net, sub, super); }
    if MatchSubset(net, sub, super) { SubsetTestExact(net, sub, super); }
  }

  /** Two port fields of all ports or one range pass the test exactly when one contains the other. */
  lemma PortSubsetExact(w: World, sub: string, super: string)
    requires OneRange(sub) && OneRange(super)
    ensures PortSubset(sub, super) <==> forall n: int :: PortMatches(w, sub, n) ==> PortMatches(w, super, n)
  {
    if PortSubset(sub, super) {
      forall n: int | PortMatches(w, sub, n) ensures PortMatches(w, super, n) {
        PortSubsetSound(w, sub, super, n);
      }
    } else {
      assert var n := MissedPort(sub, super); PortMatches(w, sub, n) && !PortMatches(w, super, n);
    }
  }

  /** A rule for both families that an address pins to one is contained and does not pass. */
  lemma PinnedFamilyIsMissed(net: Net, block: string) returns (sub: Rule, super: Rule)
    requires NetOk(net) && Denotes(net, block).Block? && !Denotes(net, block).cidr.ip.v6
    ensures sub == Plain("b", Drop).(family := Both, source := block) && super == sub.(id := "a", family := IPv4)
    ensures CanMatch(net, sub) && Contained(net, sub, super) && !MatchSubset(net, sub, super)
  {
    sub := Plain("b", Drop).(family := Both, source := block);
    super := sub.(id := "a", family := IPv4);
  }

  /** The text means all ports, or one range of port numbers. */
  predicate OneRange(a: string) { NormalizeEmpty(a) == "" || Text.GoodRange(Text.ParseRange(a)) }

  /** Some port number matches both fields. */
  ghost predicate SharePort(w: World, a: string, b: string) {
    exists n :: 1 <= n <= 65535 && PortMatches(w, a, n) && PortMatches(w, b, n)
  }

  /** Two port fields intersect by the engine's test exactly when they share a port number. */
  lemma IntersectMeansShared(w: World, a: string, b: string)
    requires OneRange(a) && OneRange(b)
    ensures PortIntersects(a, b) <==> SharePort(w, a, b)
  {
    if NormalizeEmpty(a) == "" {
      SomePort(w, b);
    } else if NormalizeEmpty(b) == "" {
      SomePort(w, a);
    } else {
      RangesIntersect(w, a, b);
    }
  }

  /** A text that holds no range and is no number counts as port zero. */
  lemma UnreadablePortIsZero(a: string, b: string)
    requires NormalizeEmpty(a) == a != "" && '-' !in a && ':' !in a && !Text.Atoi(a).ok
    ensures PortIntersects(a, b) <==>
      NormalizeEmpty(b) == "" || Text.ParseRange(NormalizeEmpty(b)).lo <= 0 <= Text.ParseRange(NormalizeEmpty(b)).hi
  {
    Text.ReplacedNothing(a, 0);
  }

  lemma RangesIntersect(w: World, a: string, b: string)
    requires OneRange(a) && OneRange(b) && NormalizeEmpty(a) != "" && NormalizeEmpty(b) != ""
    ensures PortIntersects(a, b) <==> SharePort(w, a, b)
  {
    var x, y := Text.ParseRange(a), Text.ParseRange(b);
    RangesMeet(x, y);
    assert forall n :: PortMatches(w, a, n) == InRange(x, n);
    assert forall n :: PortMatches(w, b, n) == InRange(y, n);
    assert PortIntersects(a, b) == (x.lo <= y.hi && y.lo <= x.hi);
  }

  lemma SomePort(w: World, a: string)
    requires NormalizeEmpty(a) == "" || Text.GoodRange(Text.ParseRange(a))
    ensures exists n :: 1 <= n <= 65535 && PortMatches(w, a, n)
  {
    assert PortMatches(w, a, if NormalizeEmpty(a) == "" then 1 else Text.ParseRange(a).lo);
  }

  predicate InRange(r: Text.PortRange, n: int) { r.lo <= n <= r.hi }

  lemma RangesMeet(x: Text.PortRange, y: Text.PortRange)
    requires Text.GoodRange(x) && Text.GoodRange(y)
    ensures (x.lo <= y.hi && y.lo <= x.hi) <==> exists n :: 1 <= n <= 65535 && InRange(x, n) && InRange(y, n)
  {
    var n := if x.lo <= y.lo then y.lo else x.lo;
    assert x.lo <= y.hi && y.lo <= x.hi ==> InRange(x, n) && InRange(y, n);
  }

  // ---------- the subset test alone is not enough ----------

  function Plain(id: string, action: Action): Rule {
    Rule(id, IPv4, In, action, Tcp, "", "", "", "", "", "", "", "", true, 0)
  }

  function PlainPacket(zero: Ip): Packet {
    Packet(false, In, Tcp, zero, 1, zero, 1, "eth0", "eth0", "NEW")
  }

  /** A rule for established connections passes as a superset of one for new connections. */
  lemma StateIsIgnored(net: Net) returns (w: World, sub: Rule, super: Rule, p: Packet)
    requires NetOk(net)
    ensures w.net == net && PacketOk(p)
    ensures MatchSubset(net, sub, super) && Matches(w, sub, p) && !Matches(w, super, p)
    ensures super == sub.(id := "a", action := Allow, state := "ESTABLISHED")
  {
    w := World(net, (t, x) => true, (t, n) => true, (t, s) => t == s);
    sub, super := Plain("b", Drop).(state := "NEW"), Plain("a", Allow).(state := "ESTABLISHED");
    p := PlainPacket(Ip(false, seq(32, i => false)));
  }

  /** With an incoming interface on sub only, the outgoing interface is not compared. */
  lemma OutgoingInterfaceIsSkipped(net: Net) returns (w: World, sub: Rule, super: Rule, p: Packet)
    requires NetOk(net)
    ensures w.net == net && PacketOk(p)
    ensures MatchSubset(net, sub, super) && Matches(w, sub, p) && !Matches(w, super, p)
    ensures super == sub.(id := "a", action := Allow, interfaceIn := "", interfaceOut := "eth1")
  {
    w := World(net, (t, x) => true, (t, n) => true, (t, s) => t == s);
    sub, super := Plain("b", Drop).(interfaceIn := "eth0"), Plain("a", Allow).(interfaceOut := "eth1");
    p := PlainPacket(Ip(false, seq(32, i => false)));
  }
}

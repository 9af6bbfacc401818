/**
  Addresses and CIDR blocks as bit strings (section 3.1 of RFC 4632, section 2.3 of
  RFC 4291), the texts that denote them, and what the engine's address tests mean.  Go's
  text parsers are parameters: `Net` maps a text to what net.ParseCIDR and net.ParseIP make
  of it, IPv4-mapped IPv6 forms as IPv4.
 */
module Addresses {
  import opened Basics

  datatype Ip = Ip(v6: bool, bits: seq<bool>)

  function Width(v6: bool): nat { if v6 then 128 else 32 }

  predicate IpOk(x: Ip) { |x.bits| == Width(x.v6) }

  /** The address written before the slash, and the prefix length after it. */
  datatype Cidr = Cidr(ip: Ip, len: nat)

  predicate CidrOk(c: Cidr) { IpOk(c.ip) && c.len <= Width(c.ip.v6) }

  /** net.IPNet.Contains: same family and equal under the mask. */
  predicate Contains(c: Cidr, x: Ip)
    requires CidrOk(c) && IpOk(x)
  {
    c.ip.v6 == x.v6 && c.ip.bits[..c.len] == x.bits[..c.len]
  }

  datatype Net = Net(parseCidr: string -> Option<Cidr>, parseIp: string -> Option<Ip>)

  const DEFAULT_V4 := "0.0.0.0/0"
  const DEFAULT_V6 := "::/0"

  /** What the parameters must do for the texts that the engine treats specially. */
  ghost predicate NetOk(net: Net) {
    && (forall s :: net.parseCidr(s).Some? ==> CidrOk(net.parseCidr(s).value))
    && (forall s :: net.parseIp(s).Some? ==> IpOk(net.parseIp(s).value))
    && (forall s :: net.parseCidr(s).Some? ==> '/' in s)
    && (forall s :: net.parseIp(s).Some? ==> '/' !in s)
    && net.parseIp("") == None && net.parseIp("any") == None && net.parseIp("*") == None
    && (exists x :: net.parseCidr(DEFAULT_V4) == Some(Cidr(Ip(false, x), 0)))
    && (exists x :: net.parseCidr(DEFAULT_V6) == Some(Cidr(Ip(true, x), 0)))
  }

  function NormalizeEmpty(s: string): string {
    if s == "any" || s == "*" || s == DEFAULT_V4 || s == DEFAULT_V6 then "" else s
  }

  /** addrSubset of the engine, on texts. */
  predicate AddrSubset(net: Net, sub0: string, super0: string)
    requires NetOk(net)
  {
    var sub, super := NormalizeEmpty(sub0), NormalizeEmpty(super0);
    if super == "" || super == "any" then true
    else if sub == super then true
    else
      var subNet, superNet := net.parseCidr(sub), net.parseCidr(super);
      if superNet.Some? && subNet.Some? then Contains(superNet.value, subNet.value.ip)
      else if superNet.Some? then
        net.parseIp(sub).Some? && Contains(superNet.value, net.parseIp(sub).value)
      else if subNet.Some? then
        net.parseIp(super).Some? && Contains(subNet.value, net.parseIp(super).value)
      else false
  }

  /** addrCovers of the engine, for the loopback address. */
  predicate AddrCovers(net: Net, spec: string, text: string)
    requires NetOk(net)
  {
    if spec == "" || spec == "any" then true
    else
      var ip := net.parseIp(text);
      if ip.None? then false
      else if net.parseCidr(spec).Some? then Contains(net.parseCidr(spec).value, ip.value)
      else spec == text
  }

  predicate AddrOverlap(a0: string, b0: string) {
    var a, b := NormalizeEmpty(a0), NormalizeEmpty(b0);
    a == "" || b == "" || a == b
  }

  // ---------- what a text denotes ----------

  /** Everything, one block (a plain address is a block of full length), or a text of its own. */
  datatype Denoted = All | Block(cidr: Cidr) | Opaque(text: string)

  function Denotes(net: Net, spec: string): Denoted
    requires NetOk(net)
  {
    if spec == "" || spec == "any" || spec == "*" then All
    else if net.parseCidr(spec).Some? then Block(net.parseCidr(spec).value)
    else if net.parseIp(spec).Some? then
      var x := net.parseIp(spec).value;
      Block(Cidr(x, Width(x.v6)))
    else Opaque(spec)
  }

  /** A packet address matches an address text; `other` decides texts that do not parse. */
  predicate AddrMatches(net: Net, other: (string, Ip) -> bool, spec: string, x: Ip)
    requires NetOk(net) && IpOk(x)
  {
    match Denotes(net, spec)
    case All => true
    case Block(c) => Contains(c, x)
    case Opaque(t) => other(t, x)
  }

  predicate IsDefaultRoute(spec: string) { spec == DEFAULT_V4 || spec == DEFAULT_V6 }

  /**
    The prefix of `super` is no longer than that of `sub`.  The engine reads the default
    route of one family as "any", so there `sub` must denote addresses of that family.
   */
  predicate Wider(net: Net, super: string, sub: string)
    requires NetOk(net)
  {
    match (Denotes(net, super), Denotes(net, sub))
    case (Block(c), Block(d)) => c.len <= d.len && (IsDefaultRoute(super) ==> c.ip.v6 == d.ip.v6)
    case (Block(c), _) => false
    case (All, _) => true
    case (Opaque(t), _) => true
  }

  // ---------- blocks ----------

  /** Two blocks are nested or disjoint. */
  lemma BlocksNestOrMiss(c: Cidr, d: Cidr)
    requires CidrOk(c) && CidrOk(d) && c.len <= d.len
    ensures || (forall x :: IpOk(x) && Contains(d, x) ==> Contains(c, x))
            || (forall x :: IpOk(x) && Contains(d, x) ==> !Contains(c, x))
  {
  }

  lemma Nested(c: Cidr, d: Cidr)
    requires CidrOk(c) && CidrOk(d) && c.len <= d.len && Contains(c, d.ip)
    ensures forall x :: IpOk(x) && Contains(d, x) ==> Contains(c, x)
  {
  }

  /** The address that agrees with x except in bit k. */
  function Flip(x: Ip, k: nat): (y: Ip)
    requires IpOk(x) && k < |x.bits|
    ensures IpOk(y) && y.v6 == x.v6 && y.bits[k] != x.bits[k]
    ensures forall i :: 0 <= i < |x.bits| && i != k ==> y.bits[i] == x.bits[i]
  {
    x.(bits := x.bits[k := !x.bits[k]])
  }

  /** Block containment is the mask test together with the order of the prefix lengths. */
  lemma BlockSubsetExact(c: Cidr, d: Cidr)
    requires CidrOk(c) && CidrOk(d)
    ensures (forall x :: IpOk(x) && Contains(d, x) ==> Contains(c, x)) <==> c.len <= d.len && Contains(c, d.ip)
  {
    if c.len <= d.len && Contains(c, d.ip) {
      Nested(c, d);
    } else {
      assert Contains(d, d.ip);
      if Contains(c, d.ip) {
        var y := Flip(d.ip, d.len);
        assert Contains(d, y);
        assert c.ip.bits[..c.len][d.len] == d.ip.bits[..c.len][d.len];
        assert y.bits[..c.len][d.len] != d.ip.bits[..c.len][d.len];
        assert !Contains(c, y);
      }
    }
  }

  /** An address of d that is not in c. */
  lemma BlockEscapes(c: Cidr, d: Cidr) returns (x: Ip)
    requires CidrOk(c) && CidrOk(d) && !(c.len <= d.len && c.ip.v6 == d.ip.v6)
    ensures IpOk(x) && Contains(d, x) && !Contains(c, x)
  {
    BlockSubsetExact(c, d);
    x :| IpOk(x) && Contains(d, x) && !Contains(c, x);
  }

  // ---------- the engine's subset test ----------

  /** Every address that matches sub matches super. */
  ghost predicate Within(net: Net, other: (string, Ip) -> bool, sub: string, super: string)
    requires NetOk(net)
  {
    forall x :: IpOk(x) && AddrMatches(net, other, sub, x) ==> AddrMatches(net, other, super, x)
  }

  /** A true test between texts, the super one no longer, is containment. */
  lemma AddrSubsetSound(net: Net, other: (string, Ip) -> bool, sub: string, super: string)
    requires NetOk(net) && AddrSubset(net, sub, super) && Wider(net, super, sub)
    ensures Within(net, other, sub, super)
  {
    match (Denotes(net, super), Denotes(net, sub))
    case (Block(c), Block(d)) =>
      assert Contains(c, d.ip);
      Nested(c, d);
    case (All, _) =>
    case (Opaque(t), _) =>
  }

  /**
    For two texts that denote blocks or everything, each written in the one way that the
    engine compares, containment holds exactly when the test is true and the super prefix
    is no longer than the sub prefix.
   */
  lemma AddrSubsetExact(net: Net, other: (string, Ip) -> bool, sub: string, super: string)
    requires NetOk(net)
    requires !Denotes(net, sub).Opaque? && !Denotes(net, super).Opaque?
    requires Canonical(net, sub, super)
    ensures Within(net, other, sub, super) <==> AddrSubset(net, sub, super) && Wider(net, super, sub)
  {
    if AddrSubset(net, sub, super) && Wider(net, super, sub) {
      AddrSubsetSound(net, other, sub, super);
    }
    if Within(net, other, sub, super) {
      WithinPassesTest(net, other, sub, super);
    }
  }

  lemma WithinPassesTest(net: Net, other: (string, Ip) -> bool, sub: string, super: string)
    requires NetOk(net)
    requires !Denotes(net, sub).Opaque? && !Denotes(net, super).Opaque?
    requires Canonical(net, sub, super)
    requires Within(net, other, sub, super)
    ensures AddrSubset(net, sub, super) && Wider(net, super, sub)
  {
    var sup, low := Denotes(net, super), Denotes(net, sub);
    if sup.Block? {
      var x := BlockMissesSome(net, other, super);
      if low.Block? {
        assert forall x :: IpOk(x) && Contains(low.cidr, x) ==> AddrMatches(net, other, sub, x);
        BlockWithin(net, sub, super, low.cidr, sup.cidr);
      }
    }
  }

  lemma BlockMissesSome(net: Net, other: (string, Ip) -> bool, super: string) returns (x: Ip)
    requires NetOk(net) && Denotes(net, super).Block?
    ensures IpOk(x) && !AddrMatches(net, other, super, x)
  {
    var v6 := !Denotes(net, super).cidr.ip.v6;
    x := Ip(v6, seq(Width(v6), i => false));
  }

  lemma BlockWithin(net: Net, sub: string, super: string, d: Cidr, c: Cidr)
    requires NetOk(net) && Denotes(net, sub) == Block(d) && Denotes(net, super) == Block(c)
    requires Canonical(net, sub, super)
    requires forall x :: IpOk(x) && Contains(d, x) ==> Contains(c, x)
    ensures AddrSubset(net, sub, super) && Wider(net, super, sub)
  {
    BlockSubsetExact(c, d);
    assert IsDefaultRoute(sub) ==> d.len == 0;
    assert c.len == d.len == |c.ip.bits| ==> c.ip.bits[..c.len] == c.ip.bits && d.ip.bits[..d.len] == d.ip.bits;
  }

  /** One text per plain address, and the only empty prefixes are the two default routes. */
  predicate Canonical(net: Net, sub: string, super: string)
    requires NetOk(net)
  {
    && (Denotes(net, super).Block? && Denotes(net, super).cidr.len == 0 ==> IsDefaultRoute(super))
    && ((net.parseCidr(sub).None? && net.parseCidr(super).None?
         && net.parseIp(sub).Some? && net.parseIp(sub) == net.parseIp(super)) ==> sub == super)
  }
}

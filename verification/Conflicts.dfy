/**
  The conflict engine: pairwise analysis in evaluation order, lockout checks and
  deduplication, and what its reports say about the verdicts of the rule list.  Message
  texts other than the code are not modelled.
 */
module Conflicts {
  import opened Basics
  import opened Addresses
  import opened Rules
  import opened PriorityOrder
  import Text

  datatype Conflict = Conflict(code: string, severity: string, ruleIds: seq<string>)

  const DUPLICATE := "DUPLICATE_RULE"
  const OVERLAP := "ALLOW_DENY_OVERLAP"
  const SHADOWED := "RULE_SHADOWED"
  const MANAGEMENT := "MANAGEMENT_PORT_LOCKOUT"
  const SSH := "SSH_LOCKOUT_RISK"
  const LOOPBACK := "127.0.0.1"

  function Pairwise(net: Net, a: Rule, b: Rule): seq<Conflict>
    requires NetOk(net)
  {
    if a.id == b.id then []
    else if SameRule(a, b) then [Conflict(DUPLICATE, "WARNING", [a.id, b.id])]
    else if SameMatch(a, b) && a.action != b.action then [Conflict(OVERLAP, "HIGH", [a.id, b.id])]
    else if Shadows(net, a, b) then [Conflict(SHADOWED, "WARNING", [a.id, b.id])]
    else []
  }

  function Enabled(s: seq<Rule>): seq<Rule> {
    if s == [] then []
    else Enabled(s[..|s| - 1]) + (if s[|s| - 1].enabled then [s[|s| - 1]] else [])
  }

  /** The order in which the active rules of a list are evaluated. */
  function Order(s: seq<Rule>): seq<Rule> { Sort(Enabled(s)) }

  /** What the analysis of a pair of rules calls for. */
  type Test = (Rule, Rule) --> seq<Conflict>

  ghost predicate Total(test: Test) { forall a, b :: test.requires(a, b) }

  function PairTest(net: Net): (test: Test)
    requires NetOk(net)
    ensures Total(test)
  {
    (a: Rule, b: Rule) requires NetOk(net) => Pairwise(net, a, b)
  }

  /** The reports on rule i against the rules i + 1 to j - 1. */
  function Row(test: Test, o: seq<Rule>, i: nat, j: nat): seq<Conflict>
    requires Total(test) && i < j <= |o|
  {
    if j == i + 1 then [] else Row(test, o, i, j - 1) + test(o[i], o[j - 1])
  }

  function Rows(test: Test, o: seq<Rule>, i: nat): seq<Conflict>
    requires Total(test) && i <= |o|
  {
    if i == 0 then [] else Rows(test, o, i - 1) + Row(test, o, i - 1, |o|)
  }

  predicate Blocks(r: Rule) {
    r.direction == In && (r.action == Deny || r.action == Reject || r.action == Drop)
  }

  /** A blocking rule risks locking out what an existing inbound allow admits. */
  predicate Risks(candidate: Rule, r: Rule) {
    && r.action == Allow && r.direction == In
    && PortIntersects(candidate.destinationPort, r.destinationPort)
    && AddrOverlap(candidate.source, r.source)
  }

  function SshRisks(existing: seq<Rule>, candidate: Rule): seq<Conflict> {
    if existing == [] then []
    else
      var n := |existing| - 1;
      SshRisks(existing[..n], candidate)
      + (if Risks(candidate, existing[n]) then [Conflict(SSH, "CRITICAL", [candidate.id, existing[n].id])] else [])
  }

  predicate CoversLoopback(net: Net, r: Rule)
    requires NetOk(net)
  {
    AddrCovers(net, r.source, LOOPBACK) || AddrCovers(net, r.destination, LOOPBACK)
  }

  function Lockouts(net: Net, existing: seq<Rule>, candidate: Rule): seq<Conflict>
    requires NetOk(net)
  {
    if !Blocks(candidate) then []
    else
      (if CoversLoopback(net, candidate) then [Conflict(MANAGEMENT, "CRITICAL", [candidate.id])] else [])
      + SshRisks(existing, candidate)
  }

  // ---------- deduplication ----------

  function Key(c: Conflict): string { c.code + "|" + Text.Join(c.ruleIds, ',') }

  predicate HasKey(cs: seq<Conflict>, k: string) {
    exists i :: 0 <= i < |cs| && Key(cs[i]) == k
  }

  function Dedupe(cs: seq<Conflict>): seq<Conflict> {
    if cs == [] then []
    else
      var n := |cs| - 1;
      Dedupe(cs[..n]) + (if HasKey(cs[..n], Key(cs[n])) then [] else [cs[n]])
  }

  /** Deduplication invents nothing and loses no key. */
  lemma {:induction false} DedupeKeepsKeys(cs: seq<Conflict>)
    ensures forall i :: 0 <= i < |Dedupe(cs)| ==> Dedupe(cs)[i] in cs
    ensures forall i :: 0 <= i < |cs| ==> HasKey(Dedupe(cs), Key(cs[i]))
  {
    if cs != [] {
      var n := |cs| - 1;
      var init := cs[..n];
      DedupeKeepsKeys(init);
      var d, e := Dedupe(init), Dedupe(cs);
      forall i | 0 <= i < |cs| ensures HasKey(e, Key(cs[i])) {
        if i < n {
          assert init[i] == cs[i];
          KeyStays(d, e, Key(cs[i]));
        } else if HasKey(init, Key(cs[n])) {
          var j :| 0 <= j < |init| && Key(init[j]) == Key(cs[n]);
          KeyStays(d, e, Key(init[j]));
        } else {
          assert e[|d|] == cs[n];
        }
      }
    }
  }

  /** What is kept of a beginning of the list is the beginning of what is kept. */
  lemma {:induction false} DedupePrefix(cs: seq<Conflict>, k: nat)
    requires k <= |cs|
    ensures Dedupe(cs[..k]) <= Dedupe(cs)
  {
    if k < |cs| {
      var n := |cs| - 1;
      DedupePrefix(cs[..n], k);
      assert cs[..n][..k] == cs[..k];
    } else {
      assert cs[..k] == cs;
    }
  }

  /** The conflict is in the list, and stands before every other one with its key. */
  predicate IsFirst(cs: seq<Conflict>, c: Conflict) {
    cs != [] && (IsFirst(cs[..|cs| - 1], c) || (c == cs[|cs| - 1] && !HasKey(cs[..|cs| - 1], Key(c))))
  }

  ghost predicate DistinctKeys(cs: seq<Conflict>) {
    forall i, j :: 0 <= i < j < |cs| ==> Key(cs[i]) != Key(cs[j])
  }

  lemma NewKeyIsDistinct(cs: seq<Conflict>, c: Conflict)
    requires DistinctKeys(cs) && !HasKey(cs, Key(c))
    ensures DistinctKeys(cs + [c])
  {
  }

  lemma NoNewKeys(cs: seq<Conflict>, d: seq<Conflict>, k: string)
    requires !HasKey(cs, k) && forall i :: 0 <= i < |d| ==> d[i] in cs
    ensures !HasKey(d, k)
  {
    forall i | 0 <= i < |d| ensures Key(d[i]) != k {
      var j :| 0 <= j < |cs| && cs[j] == d[i];
    }
  }

  /** What is kept is exactly the first conflict of each key, each once. */
  lemma {:induction false} DedupeKeepsFirsts(cs: seq<Conflict>)
    ensures forall c :: c in Dedupe(cs) <==> IsFirst(cs, c)
    ensures DistinctKeys(Dedupe(cs))
  {
    if cs != [] {
      var init, last := cs[..|cs| - 1], cs[|cs| - 1];
      DedupeKeepsFirsts(init);
      DedupeKeepsKeys(init);
      if !HasKey(init, Key(last)) {
        NoNewKeys(init, Dedupe(init), Key(last));
        NewKeyIsDistinct(Dedupe(init), last);
      }
    }
  }

  lemma KeyStays(d: seq<Conflict>, e: seq<Conflict>, k: string)
    requires HasKey(d, k) && |d| <= |e| && d == e[..|d|]
    ensures HasKey(e, k)
  {
  }

  /** The severity is a function of the code, and no code holds the separator. */
  predicate Proper(c: Conflict) {
    || (c.code == DUPLICATE && c.severity == "WARNING")
    || (c.code == OVERLAP && c.severity == "HIGH")
    || (c.code == SHADOWED && c.severity == "WARNING")
    || (c.code == MANAGEMENT && c.severity == "CRITICAL")
    || (c.code == SSH && c.severity == "CRITICAL")
  }

  lemma CodesHoldNoBar()
    ensures '|' !in DUPLICATE && '|' !in OVERLAP && '|' !in SHADOWED && '|' !in MANAGEMENT && '|' !in SSH
  {
  }

  lemma BeforeTheBar(x: string, r: string, y: string, s: string)
    requires '|' !in x && '|' !in y
    requires x + "|" + r == y + "|" + s
    ensures x == y
  {
    var k := x + "|" + r;
    assert k[|x|] == '|' && k[|y|] == '|';
    assert forall i :: 0 <= i < |x| ==> k[i] == x[i];
    assert forall i :: 0 <= i < |y| ==> k[i] == y[i];
    assert |x| == |y|;
  }

  lemma KeyGivesCode(c: Conflict, d: Conflict)
    requires Proper(c) && Proper(d) && Key(c) == Key(d)
    ensures c.code == d.code
  {
    CodesHoldNoBar();
    BeforeTheBar(c.code, Text.Join(c.ruleIds, ','), d.code, Text.Join(d.ruleIds, ','));
  }

  // ---------- the analysis ----------

  function All(existing: seq<Rule>, candidate: Option<Rule>): seq<Rule> {
    match candidate case None => existing case Some(r) => existing + [r]
  }

  function Found(net: Net, existing: seq<Rule>, candidate: Option<Rule>): seq<Conflict>
    requires NetOk(net)
  {
    var o := Order(All(existing, candidate));
    Rows(PairTest(net), o, |o|) + match candidate case None => [] case Some(r) => Lockouts(net, existing, r)
  }

  function Analyze(net: Net, existing: seq<Rule>, candidate: Option<Rule>): seq<Conflict>
    requires NetOk(net)
  {
    Dedupe(Found(net, existing, candidate))
  }

  /** The text means any address to the engine. */
  predicate IsAny(spec: string) { spec in {"", "any", "*", "0.0.0.0/0", "::/0"} }

  /** When an existing rule is put at risk: it admits inbound traffic on a port and from a source that are shared. */
  lemma RiskExact(candidate: Rule, r: Rule)
    ensures Risks(candidate, r) <==>
      && r.action == Allow && r.direction == In
      && PortIntersects(candidate.destinationPort, r.destinationPort)
      && (IsAny(candidate.source) || IsAny(r.source) || candidate.source == r.source)
  {
  }

  lemma {:induction false} SshRisksExact(existing: seq<Rule>, candidate: Rule, c: Conflict)
    ensures c in SshRisks(existing, candidate) <==>
      exists k :: 0 <= k < |existing| && Risks(candidate, existing[k])
        && c == Conflict(SSH, "CRITICAL", [candidate.id, existing[k].id])
  {
    if existing != [] {
      var n := |existing| - 1;
      SshRisksExact(existing[..n], candidate, c);
      assert forall k :: 0 <= k < n ==> existing[..n][k] == existing[k];
    }
  }

  /** The lockout reports of a candidate: none unless it blocks inbound traffic, then exactly these. */
  lemma LockoutReports(net: Net, existing: seq<Rule>, candidate: Rule, c: Conflict)
    requires NetOk(net)
    ensures var blocking := candidate.direction == In && candidate.action in {Deny, Reject, Drop};
      var loopback := AddrCovers(net, candidate.source, LOOPBACK) || AddrCovers(net, candidate.destination, LOOPBACK);
      var risks := exists k ::
        0 <= k < |existing| && Risks(candidate, existing[k])
        && c == Conflict(SSH, "CRITICAL", [candidate.id, existing[k].id]);
      c in Lockouts(net, existing, candidate) <==>
        blocking && ((loopback && c == Conflict(MANAGEMENT, "CRITICAL", [candidate.id])) || risks)
  {
    SshRisksExact(existing, candidate, c);
  }

  method LockoutChecks(net: Net, existing: seq<Rule>, candidate: Rule) returns (out: seq<Conflict>)
    requires NetOk(net)
    ensures out == Lockouts(net, existing, candidate)
  {
    out := [];
    if candidate.action == Allow && candidate.direction == In {
      return;
    }
    if candidate.direction != In
       || (candidate.action != Deny && candidate.action != Reject && candidate.action != Drop) {
      return;
    }
    if AddrCovers(net, candidate.source, LOOPBACK) || AddrCovers(net, candidate.destination, LOOPBACK) {
      out := out + [Conflict(MANAGEMENT, "CRITICAL", [candidate.id])];
    }
    var risks := SshLoop(existing, candidate);
    out := out + risks;
  }

  method SshLoop(existing: seq<Rule>, candidate: Rule) returns (out: seq<Conflict>)
    ensures out == SshRisks(existing, candidate)
  {
    out := [];
    var i := 0;
    while i < |existing|
      invariant 0 <= i <= |existing|
      invariant out == SshRisks(existing[..i], candidate)
    {
      assert existing[..i + 1][..i] == existing[..i];
      var r := existing[i];
      if r.action == Allow && r.direction == In
         && PortIntersects(candidate.destinationPort, r.destinationPort)
         && AddrOverlap(candidate.source, r.source) {
        out := out + [Conflict(SSH, "CRITICAL", [candidate.id, r.id])];
      }
      i := i + 1;
    }
    assert existing[..i] == existing;
  }

  method DedupeLoop(cs: seq<Conflict>) returns (out: seq<Conflict>)
    ensures out == Dedupe(cs)
  {
    var seen: set<string> := {};
    out := [];
    var i := 0;
    while i < |cs|
      invariant 0 <= i <= |cs|
      invariant out == Dedupe(cs[..i])
      invariant forall k :: k in seen <==> HasKey(cs[..i], k)
    {
      assert cs[..i + 1] == cs[..i] + [cs[i]];
      assert cs[..i + 1][..i] == cs[..i];
      var key := Key(cs[i]);
      if key !in seen {
        seen := seen + {key};
        out := out + [cs[i]];
      }
      KeysGrow(cs[..i], cs[i]);
      i := i + 1;
    }
    assert cs[..i] == cs;
  }

  lemma KeysGrow(cs: seq<Conflict>, c: Conflict)
    ensures forall k :: HasKey(cs + [c], k) <==> HasKey(cs, k) || k == Key(c)
  {
    forall k ensures HasKey(cs + [c], k) <==> HasKey(cs, k) || k == Key(c) {
      if HasKey(cs, k) { KeyStays(cs, cs + [c], k); }
      assert (cs + [c])[|cs|] == c;
    }
  }

  /** The enabled rules, in the order given. */
  method ActiveRules(rules: seq<Rule>) returns (active: seq<Rule>)
    ensures active == Enabled(rules)
  {
    active := [];
    var i := 0;
    while i < |rules|
      invariant 0 <= i <= |rules|
      invariant active == Enabled(rules[..i])
    {
      assert rules[..i + 1][..i] == rules[..i];
      if rules[i].enabled {
        active := active + [rules[i]];
      }
      i := i + 1;
    }
    assert rules[..i] == rules;
  }

  /** Rule i against every later one. */
  method CompareRow(test: Test, o: seq<Rule>, i: nat) returns (out: seq<Conflict>)
    requires Total(test) && i < |o|
    ensures out == Row(test, o, i, |o|)
  {
    out := [];
    var j := i + 1;
    while j < |o|
      invariant i < j <= |o|
      invariant out == Row(test, o, i, j)
    {
      out := out + test(o[i], o[j]);
      j := j + 1;
    }
  }

  /** Every pair of the ordered rules, the earlier one first. */
  method ComparePairs(test: Test, o: seq<Rule>) returns (out: seq<Conflict>)
    requires Total(test)
    ensures out == Rows(test, o, |o|)
  {
    out := [];
    var i := 0;
    while i < |o|
      invariant 0 <= i <= |o|
      invariant out == Rows(test, o, i)
    {
      var row := CompareRow(test, o, i);
      out := out + row;
      i := i + 1;
    }
  }

  /** A sorted copy. */
  method Ordered(active: seq<Rule>) returns (ordered: seq<Rule>)
    ensures ordered == Sort(active)
  {
    var a := new Rule[|active|](k requires 0 <= k < |active| => active[k]);
    assert a[..] == active;
    SortInPlace(a);
    ordered := a[..];
  }

  method AnalyzeConflicts(net: Net, existing: seq<Rule>, candidate: Option<Rule>) returns (out: seq<Conflict>)
    requires NetOk(net)
    ensures out == Analyze(net, existing, candidate)
  {
    var rules := existing;
    if candidate.Some? {
      rules := rules + [candidate.value];
    }
    var active := ActiveRules(rules);
    var ordered := Ordered(active);
    out := ComparePairs(PairTest(net), ordered);
    if candidate.Some? {
      var lockouts := LockoutChecks(net, existing, candidate.value);
      out := out + lockouts;
    }
    assert out == Found(net, existing, candidate);
    out := DedupeLoop(out);
  }

  // ---------- what the reports mean ----------

  /** For this packet, rule b behind rule a decides nothing. */
  predicate Covered(w: World, a: Rule, b: Rule, p: Packet)
    requires NetOk(w.net) && PacketOk(p)
  {
    b.action == Log || !Matches(w, b, p) || (a.action != Log && Matches(w, a, p))
  }

  ghost predicate DistinctIds(s: seq<Rule>) {
    forall i, j :: 0 <= i < j < |s| ==> s[i].id != s[j].id
  }

  lemma {:induction false} VerdictDecided(w: World, s: seq<Rule>, k: nat, p: Packet)
    requires NetOk(w.net) && PacketOk(p)
    requires k < |s| && s[k].action != Log && Matches(w, s[k], p)
    ensures Verdict(w, s, p).Some?
  {
    if k > 0 { VerdictDecided(w, s[1..], k - 1, p); }
  }

  lemma {:induction false} VerdictJoin(w: World, xs: seq<Rule>, ys: seq<Rule>, p: Packet)
    requires NetOk(w.net) && PacketOk(p)
    ensures Verdict(w, xs + ys, p) == if Verdict(w, xs, p).Some? then Verdict(w, xs, p) else Verdict(w, ys, p)
  {
    if xs == [] {
      assert xs + ys == ys;
    } else {
      assert (xs + ys)[1..] == xs[1..] + ys;
      VerdictJoin(w, xs[1..], ys, p);
    }
  }

  /** A covered rule is never reached or decides nothing. */
  lemma CoveredDecidesNothing(w: World, o: seq<Rule>, m: nat, n: nat, ys: seq<Rule>, p: Packet)
    requires NetOk(w.net) && PacketOk(p)
    requires m < n < |o| && Covered(w, o[m], o[n], p)
    ensures Verdict(w, o[..n], p).Some? || Verdict(w, [o[n]] + ys, p) == Verdict(w, ys, p)
  {
    assert ([o[n]] + ys)[1..] == ys;
    if Matches(w, o[n], p) && o[n].action != Log {
      assert o[..n][m] == o[m];
      VerdictDecided(w, o[..n], m, p);
    }
  }

  /** Deleting the rule at place n changes no verdict when an earlier rule covers it. */
  lemma DeletingCoveredAt(w: World, o: seq<Rule>, m: nat, n: nat, p: Packet)
    requires NetOk(w.net) && PacketOk(p)
    requires m < n < |o| && Covered(w, o[m], o[n], p)
    ensures Verdict(w, o[..n] + o[n + 1..], p) == Verdict(w, o, p)
  {
    var xs, ys := o[..n], o[n + 1..];
    CoveredDecidesNothing(w, o, m, n, ys, p);
    DeletingBetween(w, xs, o[n], ys, p);
    assert o == xs + ([o[n]] + ys);
  }

  lemma DeletingBetween(w: World, xs: seq<Rule>, b: Rule, ys: seq<Rule>, p: Packet)
    requires NetOk(w.net) && PacketOk(p)
    requires Verdict(w, xs, p).Some? || Verdict(w, [b] + ys, p) == Verdict(w, ys, p)
    ensures Verdict(w, xs + ys, p) == Verdict(w, xs + ([b] + ys), p)
  {
    VerdictJoin(w, xs, [b] + ys, p);
    VerdictJoin(w, xs, ys, p);
  }

  lemma EnabledSnoc(s: seq<Rule>, r: Rule)
    ensures Enabled(s + [r]) == if r.enabled then Enabled(s) + [r] else Enabled(s)
  {
  }

  lemma EnabledWithoutSnoc(s: seq<Rule>, r: Rule, id: string)
    requires Enabled(Without(s, id)) == Without(Enabled(s), id)
    ensures Enabled(Without(s + [r], id)) == Without(Enabled(s + [r]), id)
  {
    WithoutSnoc(s, r, id);
    EnabledSnoc(s, r);
    WithoutSnoc(Enabled(s), r, id);
    EnabledSnoc(Without(s, id), r);
  }

  lemma {:induction false} EnabledWithout(s: seq<Rule>, id: string)
    ensures Enabled(Without(s, id)) == Without(Enabled(s), id)
  {
    if s != [] {
      var init, last := s[..|s| - 1], s[|s| - 1];
      EnabledWithout(init, id);
      EnabledWithoutSnoc(init, last, id);
      assert s == init + [last];
    }
  }

  lemma {:induction false} EnabledMembers(s: seq<Rule>)
    ensures forall r :: r in Enabled(s) ==> r in s
    ensures DistinctIds(s) ==> DistinctIds(Enabled(s))
  {
    if s != [] {
      var init := s[..|s| - 1];
      EnabledMembers(init);
      if DistinctIds(s) {
        assert DistinctIds(init);
        forall i | 0 <= i < |Enabled(init)| ensures Enabled(init)[i].id != s[|s| - 1].id {
          assert Enabled(init)[i] in init;
        }
      }
    }
  }

  /** The active rules are the enabled ones, as often and in the order that the list has them. */
  lemma {:induction false} EnabledExact(s: seq<Rule>)
    ensures forall r :: multiset(Enabled(s))[r] == if r.enabled then multiset(s)[r] else 0
    ensures forall k :: 0 <= k <= |s| ==> Enabled(s[..k]) <= Enabled(s)
  {
    if s != [] {
      var n := |s| - 1;
      EnabledExact(s[..n]);
      assert s == s[..n] + [s[n]];
      forall k | 0 <= k <= |s| ensures Enabled(s[..k]) <= Enabled(s) {
        if k <= n { assert s[..n][..k] == s[..k]; } else { assert s[..k] == s; }
      }
    }
  }

  /** The evaluation order holds exactly the enabled rules of the list, sorted by priority and stable. */
  lemma OrderExact(s: seq<Rule>, v: int)
    ensures forall r :: multiset(Order(s))[r] == if r.enabled then multiset(s)[r] else 0
    ensures Sorted(Order(s)) && OfPriority(Order(s), v) == OfPriority(Enabled(s), v)
  {
    EnabledExact(s);
    SortIsStable(Enabled(s), v);
  }

  lemma {:induction false} InsertDistinct(s: seq<Rule>, r: Rule)
    requires DistinctIds(s) && forall i :: 0 <= i < |s| ==> s[i].id != r.id
    ensures DistinctIds(Insert(s, r))
    ensures forall x :: x in Insert(s, r) <==> x in s || x == r
  {
    if s != [] && s[|s| - 1].priority > r.priority {
      var init, last := s[..|s| - 1], s[|s| - 1];
      assert s == init + [last];
      InsertDistinct(init, r);
      var t := Insert(init, r);
      forall i | 0 <= i < |t| ensures t[i].id != last.id {
        assert t[i] in init || t[i] == r;
      }
    }
  }

  lemma {:induction false} SortDistinct(s: seq<Rule>)
    requires DistinctIds(s)
    ensures DistinctIds(Sort(s))
    ensures forall x :: x in Sort(s) <==> x in s
  {
    if s != [] {
      var init, last := s[..|s| - 1], s[|s| - 1];
      assert s == init + [last];
      SortDistinct(init);
      forall i | 0 <= i < |Sort(init)| ensures Sort(init)[i].id != last.id {
        assert Sort(init)[i] in init;
      }
      InsertDistinct(Sort(init), last);
    }
  }

  lemma RowSplit(test: Test, o: seq<Rule>, i: nat, j: nat, c: Conflict)
    requires Total(test) && i < j <= |o| && c in Row(test, o, i, j)
    ensures i < j - 1 && (c in Row(test, o, i, j - 1) || c in test(o[i], o[j - 1]))
  {
  }

  /** Where a report of the pairwise analysis comes from. */
  lemma {:induction false} RowOrigin(test: Test, o: seq<Rule>, i: nat, j: nat, c: Conflict) returns (k: nat)
    requires Total(test) && i < j <= |o| && c in Row(test, o, i, j)
    ensures i < k < j && c in test(o[i], o[k])
    decreases j
  {
    RowSplit(test, o, i, j, c);
    if c in Row(test, o, i, j - 1) {
      k := RowOrigin(test, o, i, j - 1, c);
    } else {
      k := j - 1;
    }
  }

  lemma RowsSplit(test: Test, o: seq<Rule>, i: nat, c: Conflict) returns (earlier: bool)
    requires Total(test) && i <= |o| && c in Rows(test, o, i)
    ensures i > 0 && if earlier then c in Rows(test, o, i - 1) else c in Row(test, o, i - 1, |o|)
  {
    earlier := i > 0 && c in Rows(test, o, i - 1);
  }

  lemma {:induction false} RowsOrigin(test: Test, o: seq<Rule>, i: nat, c: Conflict) returns (m: nat, n: nat)
    requires Total(test) && i <= |o| && c in Rows(test, o, i)
    ensures m < n < |o| && c in test(o[m], o[n])
    decreases i
  {
    var earlier := RowsSplit(test, o, i, c);
    if earlier {
      m, n := RowsOrigin(test, o, i - 1, c);
    } else {
      m := i - 1;
      n := RowOrigin(test, o, i - 1, |o|, c);
    }
  }

  /** The report is about a pair of rules, not about locking an administrator out. */
  predicate OnPair(c: Conflict) { c.code == DUPLICATE || c.code == OVERLAP || c.code == SHADOWED }

  lemma {:induction false} SshRisksAreNotOnPairs(existing: seq<Rule>, candidate: Rule)
    ensures forall i :: 0 <= i < |SshRisks(existing, candidate)| ==> !OnPair(SshRisks(existing, candidate)[i])
  {
    if existing != [] { SshRisksAreNotOnPairs(existing[..|existing| - 1], candidate); }
  }

  /** A report on a pair comes from the pairwise analysis, with a candidate or without. */
  lemma OnPairsAreFromRows(net: Net, existing: seq<Rule>, candidate: Option<Rule>, c: Conflict)
    requires NetOk(net) && c in Found(net, existing, candidate) && OnPair(c)
    ensures var o := Order(All(existing, candidate)); c in Rows(PairTest(net), o, |o|)
  {
    if candidate.Some? { SshRisksAreNotOnPairs(existing, candidate.value); }
  }

  /**
    A duplicate, overlap or shadowing report names two active rules of the list with the
    candidate, the earlier one first.
   */
  lemma ReportOrigin(net: Net, existing: seq<Rule>, candidate: Option<Rule>, c: Conflict) returns (m: nat, n: nat)
    requires NetOk(net) && c in Analyze(net, existing, candidate) && OnPair(c)
    ensures var o := Order(All(existing, candidate));
      m < n < |o| && c in Pairwise(net, o[m], o[n])
  {
    var o := Order(All(existing, candidate));
    DedupeKeepsKeys(Found(net, existing, candidate));
    OnPairsAreFromRows(net, existing, candidate, c);
    m, n := RowsOrigin(PairTest(net), o, |o|, c);
  }

  lemma {:induction false} RowHolds(test: Test, o: seq<Rule>, i: nat, j: nat, k: nat, c: Conflict)
    requires Total(test) && i < k < j <= |o| && c in test(o[i], o[k])
    ensures c in Row(test, o, i, j)
    decreases j
  {
    if k < j - 1 { RowHolds(test, o, i, j - 1, k, c); }
  }

  lemma {:induction false} RowsHold(test: Test, o: seq<Rule>, i: nat, m: nat, n: nat, c: Conflict)
    requires Total(test) && m < i <= |o| && m < n < |o| && c in test(o[m], o[n])
    ensures c in Rows(test, o, i)
    decreases i
  {
    if m == i - 1 {
      RowHolds(test, o, m, |o|, n, c);
    } else {
      RowsHold(test, o, i - 1, m, n, c);
    }
  }

  /** No finding is lost: what a pair of active rules calls for is reported under its key. */
  lemma EveryFindingIsReported(net: Net, existing: seq<Rule>, candidate: Option<Rule>, m: nat, n: nat, c: Conflict)
    requires NetOk(net)
    requires var o := Order(All(existing, candidate));
      m < n < |o| && c in Pairwise(net, o[m], o[n])
    ensures HasKey(Analyze(net, existing, candidate), Key(c))
  {
    var o := Order(All(existing, candidate));
    RowsHold(PairTest(net), o, |o|, m, n, c);
    var found := Found(net, existing, candidate);
    assert c in found;
    var k :| 0 <= k < |found| && found[k] == c;
    DedupeKeepsKeys(found);
  }

  // ---------- nothing that should be reported is missed ----------

  /** Rule a under the name, comment, priority and standing of rule b. */
  function Renamed(a: Rule, b: Rule): Rule {
    a.(id := b.id, comment := b.comment, enabled := b.enabled, priority := b.priority)
  }

  /** What two rules with different ids call for, in evaluation order, and with which severity. */
  lemma PairReports(net: Net, a: Rule, b: Rule)
    requires NetOk(net) && a.id != b.id
    ensures var cs := Pairwise(net, a, b); var ids := [a.id, b.id];
      var duplicate := Renamed(a, b) == b;
      var overlap := !duplicate && Renamed(a, b).(action := b.action) == b;
      && |cs| <= 1
      && (duplicate <==> cs == [Conflict(DUPLICATE, "WARNING", ids)])
      && (overlap <==> cs == [Conflict(OVERLAP, "HIGH", ids)])
      && (cs == [Conflict(SHADOWED, "WARNING", ids)] <==>
            !duplicate && !overlap && a.action != Log && MatchSubset(net, b, a))
  {
  }

  lemma {:induction false} SshRisksAreProper(existing: seq<Rule>, candidate: Rule)
    ensures forall c :: c in SshRisks(existing, candidate) ==> Proper(c)
  {
    if existing != [] { SshRisksAreProper(existing[..|existing| - 1], candidate); }
  }

  lemma FoundIsProper(net: Net, existing: seq<Rule>, candidate: Option<Rule>, c: Conflict)
    requires NetOk(net) && c in Found(net, existing, candidate)
    ensures Proper(c)
  {
    var o := Order(All(existing, candidate));
    if c in Rows(PairTest(net), o, |o|) {
      var m, n := RowsOrigin(PairTest(net), o, |o|, c);
      PairIsProper(net, o[m], o[n], c);
    } else {
      SshRisksAreProper(existing, candidate.value);
    }
  }

  lemma PairIsProper(net: Net, a: Rule, b: Rule, c: Conflict)
    requires NetOk(net) && c in Pairwise(net, a, b)
    ensures Proper(c) && OnPair(c)
  {
  }

  lemma JoinedIdsEqual(x: Conflict, y: Conflict)
    requires x.code == y.code && Key(x) == Key(y)
    requires |x.ruleIds| == |y.ruleIds| == 2
    requires forall i :: 0 <= i < 2 ==> ',' !in x.ruleIds[i] && ',' !in y.ruleIds[i]
    ensures x.ruleIds == y.ruleIds
  {
    var s, t := Text.Join(x.ruleIds, ','), Text.Join(y.ruleIds, ',');
    AfterTheBar(x.code, s, t);
    Text.SplitJoin(x.ruleIds, ',');
    Text.SplitJoin(y.ruleIds, ',');
  }

  lemma AfterTheBar(x: string, s: string, t: string)
    requires x + "|" + s == x + "|" + t
    ensures s == t
  {
    assert (x + "|" + s)[|x| + 1..] == s && (x + "|" + t)[|x| + 1..] == t;
  }

  lemma {:induction false} InsertMembers(s: seq<Rule>, r: Rule)
    ensures forall x :: x in Insert(s, r) ==> x in s || x == r
  {
    if s != [] && s[|s| - 1].priority > r.priority { InsertMembers(s[..|s| - 1], r); }
  }

  lemma {:induction false} SortMembers(s: seq<Rule>)
    ensures forall x :: x in Sort(s) ==> x in s
  {
    if s != [] {
      SortMembers(s[..|s| - 1]);
      InsertMembers(Sort(s[..|s| - 1]), s[|s| - 1]);
    }
  }

  lemma OrderedRuleIsListed(rules: seq<Rule>, k: nat)
    requires k < |Order(rules)|
    ensures Order(rules)[k] in rules
  {
    EnabledMembers(rules);
    SortMembers(Enabled(rules));
  }

  /** A finding on a pair is in the analysis, when no id of the list holds a comma. */
  lemma FindingIsReported(net: Net, existing: seq<Rule>, candidate: Option<Rule>, m: nat, n: nat, c: Conflict)
    returns (d: Conflict)
    requires NetOk(net) && forall r :: r in All(existing, candidate) ==> ',' !in r.id
    requires var o := Order(All(existing, candidate));
      m < n < |o| && c in Pairwise(net, o[m], o[n])
    ensures d in Analyze(net, existing, candidate) && d.code == c.code && d.ruleIds == c.ruleIds
  {
    var rules, found := All(existing, candidate), Analyze(net, existing, candidate);
    var o := Order(rules);
    EveryFindingIsReported(net, existing, candidate, m, n, c);
    var k :| 0 <= k < |found| && Key(found[k]) == Key(c);
    d := found[k];
    DedupeKeepsKeys(Found(net, existing, candidate));
    FoundIsProper(net, existing, candidate, d);
    PairIsProper(net, o[m], o[n], c);
    KeyGivesCode(c, d);
    var i, j := ReportOrigin(net, existing, candidate, d);
    PairwiseNames(net, o[m], o[n], c);
    PairwiseNames(net, o[i], o[j], d);
    OrderedRuleIsListed(rules, m);
    OrderedRuleIsListed(rules, n);
    OrderedRuleIsListed(rules, i);
    OrderedRuleIsListed(rules, j);
    JoinedIdsEqual(c, d);
  }

  /**
    The engine misses no rule that an earlier one makes idle: if the earlier of two active
    rules terminates and every packet of the later one, which can match, is matched by it,
    then the analysis reports the two, as long as the engine can compare their families and
    each address is written in the one way that it compares.
   */
  lemma ContainedRuleIsReported(net: Net, existing: seq<Rule>, candidate: Option<Rule>, m: nat, n: nat)
    returns (c: Conflict)
    requires NetOk(net) && forall r :: r in All(existing, candidate) ==> ',' !in r.id
    requires var o := Order(All(existing, candidate));
      && m < n < |o| && o[m].id != o[n].id && o[m].action != Log
      && CanMatch(net, o[n]) && Contained(net, o[n], o[m])
      && Canonical(net, o[n].source, o[m].source) && Canonical(net, o[n].destination, o[m].destination)
      && FamilySubset(o[n].family, o[m].family)
    ensures c in Analyze(net, existing, candidate) && OnPair(c)
    ensures var o := Order(All(existing, candidate)); c.ruleIds == [o[m].id, o[n].id]
  {
    var o := Order(All(existing, candidate));
    ContainedPassesTest(net, o[n], o[m]);
    PairReports(net, o[m], o[n]);
    var found := Pairwise(net, o[m], o[n])[0];
    PairIsProper(net, o[m], o[n], found);
    PairwiseNames(net, o[m], o[n], found);
    c := FindingIsReported(net, existing, candidate, m, n, found);
  }

  /** The report calls for no further condition, or the two rules meet it. */
  predicate Trustworthy(net: Net, c: Conflict, a: Rule, b: Rule)
    requires NetOk(net)
  {
    && (c.code == SHADOWED ==> Exact(net, b, a))
    && (c.code == OVERLAP ==> a.action != Log)
  }

  /**
    The reports tell the truth.  A duplicate, shadowing or overlap report names two active
    rules in evaluation order; if the earlier one terminates and a shadowed one meets the
    exact condition for containment, then deleting the later one changes no packet's verdict.
   */
  lemma ReportedRuleDecidesNothing(w: World, existing: seq<Rule>, candidate: Option<Rule>, c: Conflict)
    returns (m: nat, n: nat)
    requires NetOk(w.net) && c in Analyze(w.net, existing, candidate) && OnPair(c)
    ensures var o := Order(All(existing, candidate));
      && m < n < |o| && c.ruleIds == [o[m].id, o[n].id]
      && (Trustworthy(w.net, c, o[m], o[n]) ==>
            forall p :: PacketOk(p) ==> Verdict(w, o[..n] + o[n + 1..], p) == Verdict(w, o, p))
  {
    var o := Order(All(existing, candidate));
    m, n := ReportOrigin(w.net, existing, candidate, c);
    PairwiseNames(w.net, o[m], o[n], c);
    if Trustworthy(w.net, c, o[m], o[n]) {
      forall p | PacketOk(p) ensures Verdict(w, o[..n] + o[n + 1..], p) == Verdict(w, o, p) {
        CoveredByReport(w, o[m], o[n], c, p);
        DeletingCoveredAt(w, o, m, n, p);
      }
    }
  }

  /**
    The same for the list as it was given: when ids are distinct, deleting the reported
    rule by its id from the list changes no packet's verdict.
   */
  lemma ReportedIdDecidesNothing(w: World, existing: seq<Rule>, candidate: Option<Rule>, c: Conflict,
                                 i: nat, j: nat, p: Packet)
    requires NetOk(w.net) && PacketOk(p) && DistinctIds(All(existing, candidate))
    requires c in Analyze(w.net, existing, candidate) && OnPair(c)
    requires var rules := All(existing, candidate);
      && i < |rules| && j < |rules| && c.ruleIds == [rules[i].id, rules[j].id]
      && Trustworthy(w.net, c, rules[i], rules[j])
    ensures var rules := All(existing, candidate);
      Verdict(w, Order(Without(rules, rules[j].id)), p) == Verdict(w, Order(rules), p)
  {
    var rules := All(existing, candidate);
    var o := Order(rules);
    var m, n := ReportedRuleDecidesNothing(w, existing, candidate, c);
    OrderMembers(rules);
    SameIdSameRule(rules, o[m], i);
    SameIdSameRule(rules, o[n], j);
    WithoutIsDeletion(o, n);
    OrderWithout(rules, rules[j].id);
  }

  /** In every world, deleting b from behind a changes no packet's verdict. */
  ghost predicate Droppable(net: Net, a: Rule, b: Rule)
    requires NetOk(net)
  {
    forall w: World, p :: w.net == net && PacketOk(p) ==> Verdict(w, [a], p) == Verdict(w, [a, b], p)
  }

  /**
    Two rules with a shadowing report: the later one may be dropped exactly when it only
    logs, matches nothing, or meets the exact condition for containment.
   */
  lemma ShadowedPairExact(net: Net, a: Rule, b: Rule)
    requires NetOk(net) && Shadows(net, a, b)
    ensures Droppable(net, a, b) <==> b.action == Log || !CanMatch(net, b) || Exact(net, b, a)
  {
    SubsetTestExact(net, b, a);
    forall w: World, p | w.net == net && PacketOk(p)
      ensures Verdict(w, [a], p) == Verdict(w, [a, b], p) <==>
        (b.action != Log && Matches(w, b, p) ==> Matches(w, a, p))
    {
      PairVerdict(w, a, b, p);
    }
  }

  lemma PairVerdict(w: World, a: Rule, b: Rule, p: Packet)
    requires NetOk(w.net) && PacketOk(p) && a.action != Log
    ensures Verdict(w, [a], p) == Verdict(w, [a, b], p) <==>
      (b.action != Log && Matches(w, b, p) ==> Matches(w, a, p))
  {
    assert [a, b][1..] == [b] && [a][1..] == [] && [b][1..] == [];
  }

  lemma {:induction false} WithoutAbsent(s: seq<Rule>, id: string)
    requires forall i :: 0 <= i < |s| ==> s[i].id != id
    ensures Without(s, id) == s
  {
    if s != [] {
      WithoutAbsent(s[..|s| - 1], id);
      assert s == s[..|s| - 1] + [s[|s| - 1]];
    }
  }

  lemma {:induction false} WithoutIsDeletion(s: seq<Rule>, n: nat)
    requires DistinctIds(s) && n < |s|
    ensures Without(s, s[n].id) == s[..n] + s[n + 1..]
  {
    var init, last := s[..|s| - 1], s[|s| - 1];
    if n == |s| - 1 {
      WithoutAbsent(init, last.id);
    } else {
      WithoutIsDeletion(init, n);
      assert s[..n] + s[n + 1..] == (init[..n] + init[n + 1..]) + [last];
    }
  }

  lemma PairwiseNames(net: Net, a: Rule, b: Rule, c: Conflict)
    requires NetOk(net) && c in Pairwise(net, a, b)
    ensures c.ruleIds == [a.id, b.id]
  {
  }

  lemma OrderMembers(rules: seq<Rule>)
    requires DistinctIds(rules)
    ensures DistinctIds(Order(rules))
    ensures forall i :: 0 <= i < |Order(rules)| ==> Order(rules)[i] in rules
  {
    EnabledMembers(rules);
    SortDistinct(Enabled(rules));
    forall i | 0 <= i < |Order(rules)| ensures Order(rules)[i] in rules {
      assert Order(rules)[i] in Sort(Enabled(rules));
    }
  }

  /** Deleting a rule from the list deletes it from the evaluation order. */
  lemma OrderWithout(rules: seq<Rule>, id: string)
    ensures Order(Without(rules, id)) == Without(Order(rules), id)
  {
    EnabledWithout(rules, id);
    SortWithout(Enabled(rules), id);
  }

  lemma SameIdSameRule(rules: seq<Rule>, r: Rule, i: nat)
    requires DistinctIds(rules) && r in rules && i < |rules| && r.id == rules[i].id
    ensures r == rules[i]
  {
  }

  lemma CoveredByReport(w: World, a: Rule, b: Rule, c: Conflict, p: Packet)
    requires NetOk(w.net) && PacketOk(p)
    requires c in Pairwise(w.net, a, b) && Trustworthy(w.net, c, a, b)
    ensures Covered(w, a, b, p)
  {
    if c.code == SHADOWED && Matches(w, b, p) {
      SubsetTestSound(w, b, a, p);
    }
  }
}

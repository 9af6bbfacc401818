/** The order in which rules are evaluated: a stable sort by priority, done in place. */
module PriorityOrder {
  import opened Rules

  /** r goes behind every rule whose priority is not larger. */
  function Insert(s: seq<Rule>, r: Rule): (t: seq<Rule>)
    ensures |t| == |s| + 1
  {
    if s == [] || s[|s| - 1].priority <= r.priority then s + [r]
    else Insert(s[..|s| - 1], r) + [s[|s| - 1]]
  }

  function Sort(s: seq<Rule>): (t: seq<Rule>)
    ensures |t| == |s|
  {
    if s == [] then [] else Insert(Sort(s[..|s| - 1]), s[|s| - 1])
  }

  ghost predicate Sorted(s: seq<Rule>) {
    forall i, j :: 0 <= i < j < |s| ==> s[i].priority <= s[j].priority
  }

  /** The rules of one priority, in order. */
  function OfPriority(s: seq<Rule>, v: int): seq<Rule> {
    if s == [] then []
    else OfPriority(s[..|s| - 1], v) + (if s[|s| - 1].priority == v then [s[|s| - 1]] else [])
  }

  /** Without the rules that have an id. */
  function Without(s: seq<Rule>, id: string): seq<Rule> {
    if s == [] then []
    else Without(s[..|s| - 1], id) + (if s[|s| - 1].id == id then [] else [s[|s| - 1]])
  }

  lemma {:induction false} InsertSorted(s: seq<Rule>, r: Rule)
    requires Sorted(s)
    ensures Sorted(Insert(s, r))
  {
    if s != [] && s[|s| - 1].priority > r.priority {
      var init := s[..|s| - 1];
      InsertSorted(init, r);
      InsertBounded(init, r, s[|s| - 1].priority);
    }
  }

  lemma {:induction false} InsertPermutes(s: seq<Rule>, r: Rule)
    ensures multiset(Insert(s, r)) == multiset(s) + multiset{r}
  {
    if s != [] && s[|s| - 1].priority > r.priority {
      InsertPermutes(s[..|s| - 1], r);
      assert s == s[..|s| - 1] + [s[|s| - 1]];
    }
  }

  lemma {:induction false} InsertBounded(s: seq<Rule>, r: Rule, v: int)
    requires forall i :: 0 <= i < |s| ==> s[i].priority <= v
    requires r.priority <= v
    ensures forall i :: 0 <= i < |Insert(s, r)| ==> Insert(s, r)[i].priority <= v
  {
    if s != [] && s[|s| - 1].priority > r.priority {
      InsertBounded(s[..|s| - 1], r, v);
    }
  }

  lemma {:induction false} InsertKeepsOrder(s: seq<Rule>, r: Rule, v: int)
    requires Sorted(s)
    ensures OfPriority(Insert(s, r), v) == OfPriority(s, v) + (if r.priority == v then [r] else [])
  {
    if s == [] || s[|s| - 1].priority <= r.priority {
      assert (s + [r])[..|s|] == s;
    } else {
      var init, last := s[..|s| - 1], s[|s| - 1];
      InsertKeepsOrder(init, r, v);
      assert Insert(s, r)[..|s|] == Insert(init, r);
      if v == last.priority {
        assert r.priority != v;
      } else if r.priority == v {
        assert last.priority != v;
      }
    }
  }

  lemma {:induction false} SortSorted(s: seq<Rule>)
    ensures Sorted(Sort(s))
  {
    if s != [] {
      SortSorted(s[..|s| - 1]);
      InsertSorted(Sort(s[..|s| - 1]), s[|s| - 1]);
    }
  }

  lemma {:induction false} SortPermutes(s: seq<Rule>)
    ensures multiset(Sort(s)) == multiset(s)
  {
    if s != [] {
      SortPermutes(s[..|s| - 1]);
      InsertPermutes(Sort(s[..|s| - 1]), s[|s| - 1]);
      assert s == s[..|s| - 1] + [s[|s| - 1]];
    }
  }

  lemma {:induction false} SortKeepsOrder(s: seq<Rule>, v: int)
    ensures OfPriority(Sort(s), v) == OfPriority(s, v)
  {
    if s != [] {
      SortKeepsOrder(s[..|s| - 1], v);
      SortSorted(s[..|s| - 1]);
      InsertKeepsOrder(Sort(s[..|s| - 1]), s[|s| - 1], v);
    }
  }

  /** The sort is sorted, a permutation, and keeps the order of rules of equal priority. */
  lemma SortIsStable(s: seq<Rule>, v: int)
    ensures Sorted(Sort(s))
    ensures multiset(Sort(s)) == multiset(s)
    ensures OfPriority(Sort(s), v) == OfPriority(s, v)
  {
    SortSorted(s);
    SortPermutes(s);
    SortKeepsOrder(s, v);
  }

  lemma WithoutSnoc(s: seq<Rule>, r: Rule, id: string)
    ensures Without(s + [r], id) == if r.id == id then Without(s, id) else Without(s, id) + [r]
  {
  }

  lemma InsertSnoc(s: seq<Rule>, x: Rule, r: Rule)
    ensures Insert(s + [x], r) == if x.priority <= r.priority then s + [x] + [r] else Insert(s, r) + [x]
  {
  }

  lemma InsertLast(s: seq<Rule>, r: Rule)
    requires forall i :: 0 <= i < |s| ==> s[i].priority <= r.priority
    ensures Insert(s, r) == s + [r]
  {
  }

  lemma {:induction false} InsertWithout(s: seq<Rule>, r: Rule, id: string)
    requires Sorted(s)
    ensures Without(Insert(s, r), id) == if r.id == id then Without(s, id) else Insert(Without(s, id), r)
    decreases |s|
  {
    WithoutSnoc(s, r, id);
    if s == [] || s[|s| - 1].priority <= r.priority {
      WithoutBounded(s, id, r.priority);
      InsertLast(Without(s, id), r);
    } else {
      var init, last := s[..|s| - 1], s[|s| - 1];
      assert s == init + [last];
      InsertWithout(init, r, id);
      WithoutSnoc(init, last, id);
      WithoutSnoc(Insert(init, r), last, id);
      InsertSnoc(Without(init, id), last, r);
    }
  }

  lemma {:induction false} WithoutBounded(s: seq<Rule>, id: string, v: int)
    requires forall i :: 0 <= i < |s| ==> s[i].priority <= v
    ensures forall i :: 0 <= i < |Without(s, id)| ==> Without(s, id)[i].priority <= v
  {
    if s != [] { WithoutBounded(s[..|s| - 1], id, v); }
  }

  lemma Prefix(s: seq<Rule>, i: nat)
    requires i < |s|
    ensures s[..i + 1] == s[..i] + [s[i]]
  {
  }

  /** Deleting a rule and sorting commute. */
  lemma SortWithout(s: seq<Rule>, id: string)
    ensures Sort(Without(s, id)) == Without(Sort(s), id)
  {
    var i := 0;
    while i < |s|
      invariant 0 <= i <= |s|
      invariant Sort(Without(s[..i], id)) == Without(Sort(s[..i]), id)
    {
      Prefix(s, i);
      SortWithoutSnoc(s[..i], s[i], id);
      i := i + 1;
    }
    assert s[..i] == s;
  }

  lemma SortWithoutSnoc(s: seq<Rule>, r: Rule, id: string)
    requires Sort(Without(s, id)) == Without(Sort(s), id)
    ensures Sort(Without(s + [r], id)) == Without(Sort(s + [r]), id)
  {
    SortSorted(s);
    SortSnoc(s, r);
    InsertWithout(Sort(s), r, id);
    WithoutSnoc(s, r, id);
    SortSnoc(Without(s, id), r);
  }

  lemma SortSnoc(s: seq<Rule>, r: Rule)
    ensures Sort(s + [r]) == Insert(Sort(s), r)
  {
  }

  // ---------- the loop ----------

  lemma {:induction false} MovedIsInsert(s: seq<Rule>, r: Rule, j: int)
    requires 0 <= j <= |s|
    requires forall k :: j <= k < |s| ==> r.priority < s[k].priority
    requires j > 0 ==> s[j - 1].priority <= r.priority
    ensures Insert(s, r) == s[..j] + [r] + s[j..]
  {
    if j == |s| {
      assert s[..j] + [r] + s[j..] == s + [r];
    } else {
      var init, last := s[..|s| - 1], s[|s| - 1];
      MovedIsInsert(init, r, j);
      assert init[..j] == s[..j] && init[j..] + [last] == s[j..];
    }
  }

  /** Between two swaps r stands at place j; what it passed is one place further up. */
  ghost predicate Sinking(cur: seq<Rule>, s: seq<Rule>, r: Rule, j: int) {
    && 0 <= j <= |s| < |cur|
    && cur[j] == r
    && (forall k :: 0 <= k < j ==> cur[k] == s[k])
    && (forall k :: j <= k < |s| ==> r.priority < s[k].priority && cur[k + 1] == s[k])
  }

  lemma SinkStep(cur: seq<Rule>, s: seq<Rule>, r: Rule, j: int)
    requires Sinking(cur, s, r, j) && j > 0 && r.priority < cur[j - 1].priority
    ensures Sinking(cur[j := cur[j - 1]][j - 1 := r], s, r, j - 1)
  {
  }

  lemma Sunk(cur: seq<Rule>, s: seq<Rule>, r: Rule, j: int)
    requires Sinking(cur, s, r, j) && (j > 0 ==> cur[j - 1].priority <= r.priority)
    ensures cur[..|s| + 1] == Insert(s, r)
  {
    MovedIsInsert(s, r, j);
    assert cur[..|s| + 1] == s[..j] + [r] + s[j..];
  }

  /** The inner loop: the rule at place i sinks to its place among those before it. */
  method Sink(ordered: array<Rule>, i: nat)
    requires i < ordered.Length
    modifies ordered
    ensures ordered[..i + 1] == Insert(old(ordered[..i]), old(ordered[i]))
    ensures ordered[i + 1..] == old(ordered[i + 1..])
  {
    ghost var s, r := ordered[..i], ordered[i];
    var j := i;
    while j > 0 && ordered[j].priority < ordered[j - 1].priority
      invariant Sinking(ordered[..], s, r, j)
      invariant ordered[i + 1..] == old(ordered[i + 1..])
    {
      ghost var cur := ordered[..];
      SinkStep(cur, s, r, j);
      ordered[j], ordered[j - 1] := ordered[j - 1], ordered[j];
      assert ordered[..] == cur[j := cur[j - 1]][j - 1 := r];
      j := j - 1;
    }
    Sunk(ordered[..], s, r, j);
    assert ordered[..i + 1] == ordered[..][..i + 1];
  }

  /** Insertion sort by adjacent swaps, as AnalyzeConflicts does it. */
  method SortInPlace(ordered: array<Rule>)
    modifies ordered
    ensures ordered[..] == Sort(old(ordered[..]))
  {
    ghost var was := ordered[..];
    if ordered.Length == 0 {
      return;
    }
    var i := 1;
    SortOne(was);
    while i < ordered.Length
      invariant 1 <= i <= ordered.Length == |was|
      invariant ordered[..i] == Sort(was[..i])
      invariant ordered[i..] == was[i..]
    {
      assert ordered[i] == ordered[i..][0] == was[i];
      Sink(ordered, i);
      SortPrefix(was, i);
      assert was[i..][1..] == was[i + 1..];
      i := i + 1;
    }
    assert was[..i] == was && ordered[..i] == ordered[..];
  }

  lemma SortOne(s: seq<Rule>)
    requires s != []
    ensures Sort(s[..1]) == s[..1]
  {
  }

  lemma SortPrefix(s: seq<Rule>, i: nat)
    requires i < |s|
    ensures Sort(s[..i + 1]) == Insert(Sort(s[..i]), s[i])
  {
    assert s[..i + 1][..i] == s[..i];
  }
}

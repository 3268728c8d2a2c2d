/** What the group planner guarantees: sound, complete and, on small machines, optimal placements. */
module Placement {
  import opened Arithmetic
  import opened Common
  import opened Sorting
  import opened Hardware
  import opened Combinations
  import opened Partitions
  import opened GpuGroups

  /** `k` disjoint groups of `tp` of the given devices, in any order. */
  ghost predicate Places(tp: nat, k: nat, ids: seq<int>, p: seq<Group>) {
    && |p| == k
    && (forall g :: g in p ==> |g| == tp && Distinct(g) && Subset(g, ids))
    && PairwiseDisjoint(p)
  }

  ghost predicate PairwiseDisjoint(p: seq<Group>) {
    forall i, j :: 0 <= i < j < |p| ==> Disjoint(p[i], p[j])
  }

  ghost predicate OneMachine(fabric: Fabric, g: Group) {
    forall x, y :: x in g && y in g ==> fabric.NodeOf(x) == fabric.NodeOf(y)
  }

  ghost predicate InMachines(fabric: Fabric, p: seq<Group>) {
    forall g :: g in p ==> OneMachine(fabric, g)
  }

  // ------------------------------------------------------------------ canonical form

  lemma IntOrder()
    ensures TotalPreorder(INT_LE) && TotalPreorder(LEAST_LE)
  {
  }

  /** Sorting distinct ids gives the increasing sequence of the same ids. */
  lemma SortIncreasing(s: seq<int>)
    requires Distinct(s)
    ensures Increasing(Sort(s, INT_LE)) && |Sort(s, INT_LE)| == |s|
    ensures forall x :: x in Sort(s, INT_LE) <==> x in s
  {
    IntOrder();
    SortOrders(s, INT_LE);
    SortPermutes(s, INT_LE);
    var t := Sort(s, INT_LE);
    assert SetOf(t) == SetOf(s);
    DistinctCardinality(s);
    FullSetDistinct(t);
    forall i, j | 0 <= i < j < |t| ensures t[i] < t[j] {
      assert INT_LE(t[i], t[j]);
    }
  }

  lemma {:induction false} FullSetDistinct<T>(s: seq<T>)
    requires |SetOf(s)| == |s|
    ensures Distinct(s)
  {
    if s != [] {
      var rest := s[1..];
      assert s == [s[0]] + rest;
      assert SetOf(s) == {s[0]} + SetOf(rest);
      SetBound(rest);
      assert s[0] !in SetOf(rest);
      FullSetDistinct(rest);
      forall i, j | 0 <= i < j < |s| ensures s[i] != s[j] {
        if i > 0 {
          assert s[1..][i - 1] != s[1..][j - 1];
        }
      }
    }
  }

  lemma {:induction false} SetBound<T>(s: seq<T>)
    ensures |SetOf(s)| <= |s|
  {
    if s != [] {
      assert s == [s[0]] + s[1..];
      assert SetOf(s) == {s[0]} + SetOf(s[1..]);
      SetBound(s[1..]);
    }
  }

  lemma {:induction false} LeastFacts(g: Group)
    requires g != []
    ensures Least(g) in g && forall x :: x in g ==> Least(g) <= x
  {
    if |g| > 1 {
      LeastFacts(g[1..]);
      assert g == [g[0]] + g[1..];
    }
  }

  lemma SortedHead(g: Group)
    requires g != [] && Distinct(g)
    ensures Sort(g, INT_LE) != [] && Sort(g, INT_LE)[0] == Least(g)
  {
    SortIncreasing(g);
    LeastFacts(g);
    var t := Sort(g, INT_LE);
    assert t[0] in t && t[0] in g;
    assert forall i :: 0 <= i < |t| ==> t[0] <= t[i];
    assert Least(g) in t;
  }

  lemma {:induction false} InsertDisjoint(g: Group, p: seq<Group>)
    requires PairwiseDisjoint(p) && forall h :: h in p ==> Disjoint(g, h)
    ensures PairwiseDisjoint(Insert(g, p, LEAST_LE))
  {
    InsertPermutes(g, p, LEAST_LE);
    if p == [] || LEAST_LE(g, p[0]) {
    } else {
      InsertDisjoint(g, p[1..]);
      InsertPermutes(g, p[1..], LEAST_LE);
      var t := Insert(g, p[1..], LEAST_LE);
      forall h | h in t ensures Disjoint(p[0], h) {
        assert h in multiset(t);
        if h != g {
          var i :| 0 <= i < |p[1..]| && p[1..][i] == h;
          assert p[i + 1] == h;
        } else {
          assert Disjoint(g, p[0]);
        }
      }
    }
  }

  lemma {:induction false} SortDisjoint(p: seq<Group>)
    requires PairwiseDisjoint(p)
    ensures PairwiseDisjoint(Sort(p, LEAST_LE))
  {
    if p != [] {
      SortDisjoint(p[1..]);
      SortPermutes(p[1..], LEAST_LE);
      forall h | h in Sort(p[1..], LEAST_LE) ensures Disjoint(p[0], h) {
        var i :| 0 <= i < |p[1..]| && p[1..][i] == h;
        assert p[i + 1] == h;
      }
      InsertDisjoint(p[0], Sort(p[1..], LEAST_LE));
    }
  }

  lemma {:induction false} InsertScore(fabric: Fabric, g: Group, p: seq<Group>)
    ensures fabric.PartitionScore(Insert(g, p, LEAST_LE)) == fabric.GroupScore(g) + fabric.PartitionScore(p)
  {
    if p == [] || LEAST_LE(g, p[0]) {
      assert ([g] + p)[1..] == p;
    } else {
      InsertScore(fabric, g, p[1..]);
      assert ([p[0]] + Insert(g, p[1..], LEAST_LE))[1..] == Insert(g, p[1..], LEAST_LE);
    }
  }

  lemma {:induction false} SortScore(fabric: Fabric, p: seq<Group>)
    ensures fabric.PartitionScore(Sort(p, LEAST_LE)) == fabric.PartitionScore(p)
  {
    if p != [] {
      SortScore(fabric, p[1..]);
      InsertScore(fabric, p[0], Sort(p[1..], LEAST_LE));
    }
  }

  lemma {:induction false} SortEachScore(fabric: Fabric, p: seq<Group>, q: seq<Group>)
    requires |q| == |p| && forall i :: 0 <= i < |p| ==> q[i] == Sort(p[i], INT_LE)
    ensures fabric.PartitionScore(q) == fabric.PartitionScore(p)
  {
    if p != [] {
      SortEachScore(fabric, p[1..], q[1..]);
      IntOrder();
      SortOrders(p[0], INT_LE);
      SortFixed(q[0], INT_LE);
    }
  }

  /** Every placement has a canonical form with the same groups and the same score. */
  lemma CanonicalForm(fabric: Fabric, tp: nat, k: nat, ids: seq<int>, p: seq<Group>)
    requires tp >= 1 && Places(tp, k, ids, p)
    ensures Canonical(tp, ids, SortGroups(p)) && |SortGroups(p)| == k
    ensures fabric.PartitionScore(SortGroups(p)) == fabric.PartitionScore(p)
  {
    var ordered, q := Sort(p, LEAST_LE), SortGroups(p);
    IntOrder();
    SortOrders(p, LEAST_LE);
    SortPermutes(p, LEAST_LE);
    SortDisjoint(p);
    SortScore(fabric, p);
    SortEachScore(fabric, ordered, q);
    forall i | 0 <= i < |q|
      ensures SortedCopy(tp, ids, ordered[i], q[i])
    {
      assert ordered[i] in p;
      SortIncreasing(ordered[i]);
      SortedHead(ordered[i]);
    }
    forall i, j | 0 <= i < j < |q| ensures Disjoint(q[i], q[j]) && HeadBefore(q[i], q[j]) {
      assert SortedCopy(tp, ids, ordered[i], q[i]) && SortedCopy(tp, ids, ordered[j], q[j]);
      SortedPair(tp, ids, ordered[i], q[i], ordered[j], q[j]);
    }
  }

  ghost predicate SortedCopy(tp: nat, ids: seq<int>, g: Group, s: Group) {
    && s != [] && |s| == tp && Increasing(s) && Subset(s, ids)
    && s[0] == Least(g)
    && forall x :: x in s <==> x in g
  }

  lemma SortedPair(tp: nat, ids: seq<int>, g: Group, s: Group, h: Group, t: Group)
    requires SortedCopy(tp, ids, g, s) && SortedCopy(tp, ids, h, t)
    requires Disjoint(g, h) && LEAST_LE(g, h)
    ensures Disjoint(s, t) && HeadBefore(s, t)
  {
    var a, b := s[0], t[0];
    assert a in s && b in t;
  }

  lemma CanonicalPlaces(tp: nat, ids: seq<int>, p: seq<Group>)
    requires Canonical(tp, ids, p)
    ensures Places(tp, |p|, ids, p)
  {
  }

  /** A canonical partition is its own canonical form. */
  lemma CanonicalStable(tp: nat, ids: seq<int>, p: seq<Group>)
    requires tp >= 1 && Canonical(tp, ids, p)
    ensures SortGroups(p) == p
  {
    forall i | 0 <= i < |p| ensures p[i] != [] && Sort(p[i], INT_LE) == p[i] && Least(p[i]) == p[i][0] {
      assert p[i] in p;
      SortFixed(p[i], INT_LE);
      SortedHead(p[i]);
    }
    forall i, j | 0 <= i < j < |p| ensures LEAST_LE(p[i], p[j]) {
      assert HeadBefore(p[i], p[j]);
    }
    SortFixed(p, LEAST_LE);
  }

  // ------------------------------------------------------------------ exhaustive search

  /** Among what was visited: the highest score, and the first that reached it. */
  lemma {:induction false} FoldBestFacts(fabric: Fabric, best: Best, l: seq<seq<Group>>)
    requires best.groups.Some? ==> best.score == fabric.PartitionScore(best.groups.value)
    ensures
      var r := FoldBest(fabric, best, l);
      && r.score >= best.score
      && (forall p :: p in l ==> fabric.PartitionScore(p) <= r.score)
      && (r == best || exists m :: 0 <= m < |l| && FirstBest(fabric, best, l, r, m))
    decreases |l|
  {
    if l != [] {
      var next := Better(fabric, best, l[0]);
      FoldBestFacts(fabric, next, l[1..]);
      var r := FoldBest(fabric, best, l);
      assert l == [l[0]] + l[1..];
      if r == next {
        if next != best {
          assert FirstBest(fabric, best, l, r, 0);
        }
      } else {
        var m :| 0 <= m < |l[1..]| && FirstBest(fabric, next, l[1..], r, m);
        forall i | 0 <= i < m + 1 ensures fabric.PartitionScore(l[i]) < r.score {
          if i > 0 {
            assert l[i] == l[1..][i - 1];
          }
        }
        assert FirstBest(fabric, best, l, r, m + 1);
      }
    }
  }

  /** `r` is `l[m]`, and everything before it, `best` included, scored less. */
  ghost predicate FirstBest(fabric: Fabric, best: Best, l: seq<seq<Group>>, r: Best, m: nat)
  {
    && m < |l|
    && r == Best(Some(l[m]), fabric.PartitionScore(l[m]))
    && best.score < r.score
    && forall i :: 0 <= i < m ==> fabric.PartitionScore(l[i]) < r.score
  }

  /** No placement beats `p`, and among canonical ones of equal score `p` comes first. */
  ghost predicate OptimalPlacement(fabric: Fabric, tp: nat, k: nat, ids: seq<int>, p: seq<Group>) {
    && Canonical(tp, ids, p) && |p| == k
    && (forall q :: Places(tp, k, ids, q) ==> fabric.PartitionScore(q) <= fabric.PartitionScore(p))
    && (forall q :: Canonical(tp, ids, q) && |q| == k && fabric.PartitionScore(q) == fabric.PartitionScore(p)
          ==> q == p || PartLess(p, q))
  }

  /** The anchored search finds the optimal placement, ties going to the lexicographically first. */
  lemma ExhaustiveOptimal(fabric: Fabric, tp: nat, k: nat, ids: seq<int>)
    requires tp >= 1 && Increasing(ids) && Times(tp, k) <= |ids|
    ensures Exhaustive(fabric, tp, k, ids).Ok?
    ensures OptimalPlacement(fabric, tp, k, ids, Exhaustive(fabric, tp, k, ids).value)
  {
    var l := Enumerate(tp, k, ids);
    var r := FoldBest(fabric, NOTHING_YET, l);
    EnumerateNonEmpty(tp, k, ids);
    FoldBestFacts(fabric, NOTHING_YET, l);
    assert l[0] in l;
    var m :| 0 <= m < |l| && FirstBest(fabric, NOTHING_YET, l, r, m);
    EnumerateSound(tp, k, ids);
    assert l[m] in l;
    var p := l[m];
    forall q | Places(tp, k, ids, q) ensures fabric.PartitionScore(q) <= fabric.PartitionScore(p) {
      CanonicalForm(fabric, tp, k, ids, q);
      EnumerateComplete(tp, ids, SortGroups(q));
    }
    EnumerateSorted(tp, k, ids);
    forall q | Canonical(tp, ids, q) && |q| == k && fabric.PartitionScore(q) == fabric.PartitionScore(p)
      ensures q == p || PartLess(p, q)
    {
      EnumerateComplete(tp, ids, q);
      var n :| 0 <= n < |l| && l[n] == q;
    }
  }

  // ------------------------------------------------------------------ greedy heuristic

  lemma {:induction false} RemoveFirstFacts(s: seq<int>, x: int)
    requires Increasing(s) && x in s
    ensures Increasing(RemoveFirst(s, x))
    ensures forall y :: y in RemoveFirst(s, x) <==> y in s && y != x
  {
    IncreasingTail(s);
    if s[0] != x {
      RemoveFirstFacts(s[1..], x);
      IncreasingCons(s[0], RemoveFirst(s[1..], x));
    }
  }

  lemma {:induction false} GrowSound(fabric: Fabric, tp: nat, group: seq<int>, remaining: seq<int>)
    requires |group| <= tp <= |group| + |remaining|
    requires Distinct(group) && Increasing(remaining) && Disjoint(group, remaining)
    ensures
      var (g, left) := Grow(fabric, tp, group, remaining);
      && Distinct(g) && Increasing(left) && Disjoint(g, left) && Subset(left, remaining)
      && forall x :: x in g ==> x in group || x in remaining
    decreases tp - |group|
  {
    if |group| < tp {
      var next := remaining[ArgMax(remaining, fabric.NextScores(remaining, group), |remaining|)];
      RemoveFirstFacts(remaining, next);
      GrowSound(fabric, tp, group + [next], RemoveFirst(remaining, next));
    }
  }

  /** The heuristic always finishes and hands out disjoint groups of the right size. */
  lemma {:induction false} GreedySound(fabric: Fabric, tp: nat, k: nat, ids: seq<int>)
    requires tp >= 1 && Times(tp, k) <= |ids| && Increasing(ids)
    ensures Places(tp, k, ids, Greedy(fabric, tp, k, ids))
    decreases k
  {
    hide FirstGreedy;
    if k > 0 {
      var group, left := GreedyStep(fabric, tp, k, ids);
      GreedySound(fabric, tp, k - 1, left);
      PlacesCons(tp, k - 1, ids, group, left, Greedy(fabric, tp, k - 1, left));
    }
  }

  lemma GreedyStep(fabric: Fabric, tp: nat, k: nat, ids: seq<int>) returns (group: Group, left: seq<int>)
    requires tp >= 1 && k >= 1 && Times(tp, k) <= |ids| && Increasing(ids)
    ensures |group| == tp && Distinct(group) && Subset(group, ids)
    ensures Increasing(left) && Subset(left, ids) && Disjoint(group, left) && |left| == |ids| - tp
    ensures Greedy(fabric, tp, k, ids) == [group] + Greedy(fabric, tp, k - 1, left)
  {
    var first := FirstGreedy(fabric, tp, ids);
    FirstGreedySound(fabric, tp, ids);
    group, left := Sort(first.0, INT_LE), first.1;
  }

  lemma FirstGreedySound(fabric: Fabric, tp: nat, ids: seq<int>)
    requires 1 <= tp <= |ids| && Increasing(ids)
    ensures
      var (group, left) := FirstGreedy(fabric, tp, ids);
      && |Sort(group, INT_LE)| == tp && Distinct(Sort(group, INT_LE)) && Subset(Sort(group, INT_LE), ids)
      && Increasing(left) && Subset(left, ids) && Disjoint(Sort(group, INT_LE), left)
  {
    var seed := ids[ArgMax(ids, fabric.SeedScores(ids, ids), |ids|)];
    RemoveFirstFacts(ids, seed);
    GrowSound(fabric, tp, [seed], RemoveFirst(ids, seed));
    SortIncreasing(FirstGreedy(fabric, tp, ids).0);
  }

  lemma PlacesCons(tp: nat, k: nat, ids: seq<int>, g: Group, left: seq<int>, p: seq<Group>)
    requires |g| == tp && Distinct(g) && Subset(g, ids)
    requires Places(tp, k, left, p) && Subset(left, ids) && Disjoint(g, left)
    ensures Places(tp, k + 1, ids, [g] + p)
  {
    var q := [g] + p;
    forall i, j | 0 <= i < j < |q| ensures Disjoint(q[i], q[j]) {
      assert q[j] == p[j - 1] && p[j - 1] in p;
    }
  }

  /** `c` is as good a next member for `group` as anything else still free, ties to the lower id. */
  ghost predicate BestNext(fabric: Fabric, group: seq<int>, c: int, free: seq<int>) {
    forall x :: x in free ==> !Beats(fabric.Attachment(x, group), x, fabric.Attachment(c, group), c)
  }

  lemma PickedIsBestNext(fabric: Fabric, group: seq<int>, remaining: seq<int>)
    requires remaining != []
    ensures BestNext(fabric, group, remaining[ArgMax(remaining, fabric.NextScores(remaining, group), |remaining|)], remaining)
  {
    var scores := fabric.NextScores(remaining, group);
    var best := ArgMax(remaining, scores, |remaining|);
    NextScoreAt(fabric, remaining, group, best);
    forall x | x in remaining
      ensures !Beats(fabric.Attachment(x, group), x, fabric.Attachment(remaining[best], group), remaining[best])
    {
      var i :| 0 <= i < |remaining| && remaining[i] == x;
      NextScoreAt(fabric, remaining, group, i);
      ArgMaxBest(remaining, scores, |remaining|, i);
    }
  }

  /** Every member added while growing was the best choice among what ended up later or left over. */
  lemma {:induction false} GrowPicksBest(fabric: Fabric, tp: nat, group: seq<int>, remaining: seq<int>, i: nat)
    requires |group| <= i < tp <= |group| + |remaining| && Increasing(remaining)
    ensures
      var (g, left) := Grow(fabric, tp, group, remaining);
      && g[..|group|] == group
      && BestNext(fabric, g[..i], g[i], g[i..] + left)
    decreases tp - |group|
  {
    var next := remaining[ArgMax(remaining, fabric.NextScores(remaining, group), |remaining|)];
    RemoveFirstFacts(remaining, next);
    var (g, left) := Grow(fabric, tp, group, remaining);
    GrowKeeps(fabric, tp, group + [next], RemoveFirst(remaining, next));
    assert g[..|group|] == (group + [next])[..|group|] == group;
    if i == |group| {
      PickedIsBestNext(fabric, group, remaining);
      assert g[i..] == [next] + g[i + 1..];
      hide Grow, RemoveFirst;
      forall x | x in g[i..] + left ensures x in remaining {
      }
    } else {
      GrowPicksBest(fabric, tp, group + [next], RemoveFirst(remaining, next), i);
    }
  }

  /** Growing extends the group by remaining devices only. */
  lemma {:induction false} GrowKeeps(fabric: Fabric, tp: nat, group: seq<int>, remaining: seq<int>)
    requires |group| <= tp <= |group| + |remaining| && Increasing(remaining)
    ensures
      var (g, left) := Grow(fabric, tp, group, remaining);
      && g[..|group|] == group
      && (forall x :: x in g[|group|..] ==> x in remaining)
      && (forall x :: x in left ==> x in remaining)
    decreases tp - |group|
  {
    if |group| < tp {
      var next := remaining[ArgMax(remaining, fabric.NextScores(remaining, group), |remaining|)];
      RemoveFirstFacts(remaining, next);
      GrowKeeps(fabric, tp, group + [next], RemoveFirst(remaining, next));
      var (g, left) := Grow(fabric, tp, group, remaining);
      assert g[..|group|] == (group + [next])[..|group|] == group;
      assert g[|group|] == (group + [next])[|group|];
      forall x | x in g[|group|..] ensures x in remaining {
        var m :| 0 <= m < |g[|group|..]| && g[|group|..][m] == x;
        if m > 0 {
          assert g[|group| + 1..][m - 1] == x;
        }
      }
    }
  }

  // ------------------------------------------------------------------ planning without machine boundaries

  lemma SingletonsPlace(fabric: Fabric, ids: seq<int>, k: nat)
    requires Increasing(ids) && k <= |ids|
    ensures OptimalPlacement(fabric, 1, k, ids, Singletons(ids[..k]))
  {
    var p := Singletons(ids[..k]);
    forall g | g in p ensures |g| == 1 && Increasing(g) && Subset(g, ids) {
      var i :| 0 <= i < |p| && p[i] == g;
      assert ids[..k][i] in ids;
    }
    assert Canonical(1, ids, p);
    forall q | Places(1, k, ids, q) ensures fabric.PartitionScore(q) == 0 {
      SingletonScore(fabric, q);
    }
    CanonicalPlaces(1, ids, p);
    forall q | Canonical(1, ids, q) && |q| == k ensures q == p || PartLess(p, q) {
      if q != p {
        FirstIdsFirst(ids, k, q);
      }
    }
  }

  lemma {:induction false} SingletonScore(fabric: Fabric, p: seq<Group>)
    requires forall g :: g in p ==> |g| == 1
    ensures fabric.PartitionScore(p) == 0
  {
    if p != [] {
      assert Sort(p[0], INT_LE) == p[0];
      assert Choose(p[0], 2) == [];
      SingletonScore(fabric, p[1..]);
    }
  }

  lemma FirstIdsFirst(ids: seq<int>, k: nat, q: seq<Group>)
    requires Increasing(ids) && k <= |ids| && Canonical(1, ids, q) && |q| == k
    requires q != Singletons(ids[..k])
    ensures PartLess(Singletons(ids[..k]), q)
  {
    var p := Singletons(ids[..k]);
    var i: nat := 0;
    while i < k && p[i] == q[i]
      invariant i <= k && p[..i] == q[..i]
    {
      i := i + 1;
    }
    assert i < k;
    assert q[i] in q;
    var x := q[i][0];
    assert x in q[i] && q[i] == [x];
    var m :| 0 <= m < |ids| && ids[m] == x;
    forall n | 0 <= n < i ensures ids[n] != x {
      assert q[n] == p[..i][n] == [ids[n]];
      assert Disjoint(q[n], q[i]) && ids[n] in q[n];
    }
    assert m > i;
    LexHead(p[i], q[i]);
    assert PartAt(p, q, i);
  }

  /**
   * Ignoring machine boundaries, planning succeeds exactly when there are enough devices; up to
   * the exhaustive limit the answer is optimal.
   */
  lemma PlanAnywhere(fabric: Fabric, tp: nat, k: nat, gpuIds: seq<int>)
    requires tp >= 1 && Distinct(gpuIds)
    ensures Plan(fabric, tp, k, gpuIds, true).Ok? <==> Times(tp, k) <= |gpuIds|
    ensures Plan(fabric, tp, k, gpuIds, true).Ok? ==>
              var p := Plan(fabric, tp, k, gpuIds, true).value;
              && Canonical(tp, Sort(gpuIds, INT_LE), p) && |p| == k
              && (|gpuIds| <= EXHAUSTIVE_MAX_GPUS ==> OptimalPlacement(fabric, tp, k, Sort(gpuIds, INT_LE), p))
  {
    var ids := Sort(gpuIds, INT_LE);
    SortIncreasing(gpuIds);
    if Times(tp, k) <= |ids| {
      if tp == 1 {
        TimesOne(k);
        SingletonsPlace(fabric, ids, k);
      } else if |ids| <= EXHAUSTIVE_MAX_GPUS {
        ExhaustiveOptimal(fabric, tp, k, ids);
        CanonicalStable(tp, ids, Exhaustive(fabric, tp, k, ids).value);
      } else {
        GreedySound(fabric, tp, k, ids);
        CanonicalForm(fabric, tp, k, ids, Greedy(fabric, tp, k, ids));
      }
    }
  }

  // ------------------------------------------------------------------ machine by machine

  function FitTotal(fabric: Fabric, tp: nat, ids: seq<int>, machines: seq<Option<string>>): nat
    requires tp >= 1
  {
    if machines == [] then 0
    else Quotient(|OnMachine(fabric, ids, machines[0])|, tp) + FitTotal(fabric, tp, ids, machines[1..])
  }

  lemma {:induction false} OnMachineIncreasing(fabric: Fabric, ids: seq<int>, machine: Option<string>)
    requires Increasing(ids)
    ensures Increasing(OnMachine(fabric, ids, machine))
  {
    if ids != [] {
      IncreasingTail(ids);
      OnMachineIncreasing(fabric, ids[1..], machine);
      if fabric.NodeOf(ids[0]) == machine {
        IncreasingCons(ids[0], OnMachine(fabric, ids[1..], machine));
      }
    }
  }

  ghost predicate OnMachines(fabric: Fabric, p: seq<Group>, machines: seq<Option<string>>) {
    && InMachines(fabric, p)
    && forall g, x :: g in p && x in g ==> fabric.NodeOf(x) in machines
  }

  /** `n` disjoint increasing groups, each on one of the machines. */
  ghost predicate Settled(
      fabric: Fabric, tp: nat, n: nat, ids: seq<int>, machines: seq<Option<string>>, p: seq<Group>)
  {
    && Places(tp, n, ids, p)
    && AllIncreasing(p)
    && OnMachines(fabric, p, machines)
  }

  ghost predicate AllIncreasing(p: seq<Group>) {
    forall g :: g in p ==> Increasing(g)
  }

  /** Visiting machines one by one never fails and uses every full group on each of them. */
  lemma {:induction false} NodeGroupsSound(fabric: Fabric, tp: nat, ids: seq<int>, machines: seq<Option<string>>)
    requires tp >= 1 && Increasing(ids) && Distinct(machines)
    ensures NodeGroups(fabric, tp, ids, machines).Ok?
    ensures Settled(fabric, tp, FitTotal(fabric, tp, ids, machines), ids, machines, NodeGroups(fabric, tp, ids, machines).value)
    decreases |machines|
  {
    if machines != [] {
      NodeGroupsSound(fabric, tp, ids, machines[1..]);
      var here := OnMachine(fabric, ids, machines[0]);
      var fit := Quotient(|here|, tp);
      OnMachineIncreasing(fabric, ids, machines[0]);
      var more := NodeGroups(fabric, tp, ids, machines[1..]).value;
      if fit > 0 {
        FullMachine(fabric, tp, here);
        JoinMachines(fabric, tp, ids, machines, here, Plan(fabric, tp, fit, here, true).value, more);
      } else {
        WiderMachines(fabric, tp, ids, machines, more);
      }
    }
  }

  lemma WiderMachines(fabric: Fabric, tp: nat, ids: seq<int>, machines: seq<Option<string>>, p: seq<Group>)
    requires machines != [] && Settled(fabric, tp, |p|, ids, machines[1..], p)
    ensures Settled(fabric, tp, |p|, ids, machines, p)
  {
    assert machines == [machines[0]] + machines[1..];
  }

  lemma FullMachine(fabric: Fabric, tp: nat, here: seq<int>)
    requires tp >= 1 && Increasing(here)
    ensures Plan(fabric, tp, Quotient(|here|, tp), here, true).Ok?
    ensures
      var p := Plan(fabric, tp, Quotient(|here|, tp), here, true).value;
      Canonical(tp, here, p) && |p| == Quotient(|here|, tp)
  {
    QuotientFits(|here|, tp, Quotient(|here|, tp));
    PlanAnywhere(fabric, tp, Quotient(|here|, tp), here);
    SortFixed(here, INT_LE);
  }

  lemma JoinMachines(
      fabric: Fabric, tp: nat, ids: seq<int>, machines: seq<Option<string>>, here: seq<int>, first: seq<Group>, more: seq<Group>)
    requires tp >= 1 && machines != [] && Distinct(machines)
    requires here == OnMachine(fabric, ids, machines[0]) && Canonical(tp, here, first)
    requires Settled(fabric, tp, |more|, ids, machines[1..], more)
    ensures Settled(fabric, tp, |first| + |more|, ids, machines, first + more)
  {
    var all := first + more;
    assert machines == [machines[0]] + machines[1..];
    assert machines[0] !in machines[1..];
    forall i, j | 0 <= i < j < |all| ensures Disjoint(all[i], all[j]) {
      if i < |first| <= j {
        assert all[i] in first && all[j] in more;
        assert Subset(all[i], here);
      }
    }
    forall g | g in all ensures |g| == tp && Increasing(g) && Subset(g, ids) && OneMachine(fabric, g) {
      assert g in first || g in more;
    }
    forall g, x | g in all && x in g ensures fabric.NodeOf(x) in machines {
      if g in first {
        assert Subset(g, here);
      }
    }
  }

  ghost predicate NonEmptyGroups(p: seq<Group>) {
    forall i :: 0 <= i < |p| ==> p[i] != []
  }

  /** The groups of `p` that sit on `machine` (or, with `on` false, elsewhere), judged by their first member. */
  function Split(fabric: Fabric, p: seq<Group>, machine: Option<string>, on: bool): (r: seq<Group>)
    requires NonEmptyGroups(p)
    ensures forall g :: g in r <==> g in p && g != [] && (fabric.NodeOf(g[0]) == machine) == on
  {
    if p == [] then []
    else if (fabric.NodeOf(p[0][0]) == machine) == on then [p[0]] + Split(fabric, p[1..], machine, on)
    else Split(fabric, p[1..], machine, on)
  }

  lemma {:induction false} SplitFacts(fabric: Fabric, p: seq<Group>, machine: Option<string>)
    requires NonEmptyGroups(p)
    ensures |Split(fabric, p, machine, true)| + |Split(fabric, p, machine, false)| == |p|
  {
    if p != [] {
      assert p == [p[0]] + p[1..];
      SplitFacts(fabric, p[1..], machine);
    }
  }

  lemma {:induction false} SplitDisjoint(fabric: Fabric, p: seq<Group>, machine: Option<string>, on: bool)
    requires PairwiseDisjoint(p) && NonEmptyGroups(p)
    ensures PairwiseDisjoint(Split(fabric, p, machine, on))
  {
    if p != [] {
      assert p == [p[0]] + p[1..];
      SplitDisjoint(fabric, p[1..], machine, on);
      var r := Split(fabric, p[1..], machine, on);
      forall h | h in r ensures Disjoint(p[0], h) {
        var i :| 0 <= i < |p[1..]| && p[1..][i] == h;
        assert p[i + 1] == h;
      }
    }
  }

  lemma SomeMachine(fabric: Fabric, p: seq<Group>, machines: seq<Option<string>>)
    requires p != [] && p[0] != [] && OnMachines(fabric, p, machines)
    ensures machines != []
  {
    var g := p[0];
    var x := g[0];
    assert g in p && x in g;
    assert fabric.NodeOf(x) in machines;
  }

  lemma OneMachineBound(fabric: Fabric, tp: nat, ids: seq<int>, machine: Option<string>, p: seq<Group>)
    requires tp >= 1 && Increasing(ids) && Places(tp, |p|, ids, p) && NonEmptyGroups(p)
    requires exists machines :: OnMachines(fabric, p, machines)
    ensures |Split(fabric, p, machine, true)| <= Quotient(|OnMachine(fabric, ids, machine)|, tp)
  {
    var here, on := OnMachine(fabric, ids, machine), Split(fabric, p, machine, true);
    SplitDisjoint(fabric, p, machine, true);
    forall g | g in on ensures Subset(g, here) {
      assert g[0] in g && g in p;
    }
    assert Places(tp, |on|, here, on);
    OnMachineIncreasing(fabric, ids, machine);
    CanonicalForm(fabric, tp, |on|, here, on);
    CanonicalFits(tp, here, SortGroups(on));
    QuotientFits(|here|, tp, |on|);
  }

  /** Machines bound what can be placed inside them: at most the full groups of each. */
  lemma {:induction false} InMachinesBound(fabric: Fabric, tp: nat, k: nat, ids: seq<int>, machines: seq<Option<string>>, p: seq<Group>)
    requires tp >= 1 && Increasing(ids) && Places(tp, k, ids, p) && OnMachines(fabric, p, machines)
    ensures k <= FitTotal(fabric, tp, ids, machines)
    decreases |machines|
  {
    if machines == [] {
      if p != [] {
        PlacesNonEmpty(tp, k, ids, p);
        SomeMachine(fabric, p, machines);
      }
    } else {
      PlacesNonEmpty(tp, k, ids, p);
      hide Places, InMachines, OnMachines, NonEmptyGroups, Split, OnMachine, Increasing, PairwiseDisjoint;
      SplitFacts(fabric, p, machines[0]);
      OneMachineBound(fabric, tp, ids, machines[0], p);
      OtherMachines(fabric, tp, ids, machines, p);
      var off := Split(fabric, p, machines[0], false);
      InMachinesBound(fabric, tp, |off|, ids, machines[1..], off);
    }
  }

  lemma PlacesNonEmpty(tp: nat, k: nat, ids: seq<int>, p: seq<Group>)
    requires tp >= 1 && Places(tp, k, ids, p)
    ensures NonEmptyGroups(p) && |p| == k
  {
    assert forall i :: 0 <= i < |p| ==> p[i] in p;
  }

  lemma OtherMachines(fabric: Fabric, tp: nat, ids: seq<int>, machines: seq<Option<string>>, p: seq<Group>)
    requires tp >= 1 && machines != [] && NonEmptyGroups(p)
    requires Places(tp, |p|, ids, p) && OnMachines(fabric, p, machines)
    ensures
      var off := Split(fabric, p, machines[0], false);
      Places(tp, |off|, ids, off) && OnMachines(fabric, off, machines[1..])
  {
    var off := Split(fabric, p, machines[0], false);
    SplitDisjoint(fabric, p, machines[0], false);
    forall g, x | g in off && x in g ensures fabric.NodeOf(x) in machines[1..] {
      assert g in p && g[0] in g;
      var i :| 0 <= i < |machines| && machines[i] == fabric.NodeOf(x);
      assert machines[1..][i - 1] == fabric.NodeOf(x);
    }
  }

  lemma {:induction false} MachinesFacts(fabric: Fabric, ids: seq<int>)
    ensures Distinct(Machines(fabric, ids))
    ensures forall x :: x in ids ==> fabric.NodeOf(x) in Machines(fabric, ids)
    ensures ids != [] ==> Machines(fabric, ids) != []
  {
    if ids != [] {
      var n := |ids| - 1;
      MachinesFacts(fabric, ids[..n]);
      assert ids == ids[..n] + [ids[n]];
    }
  }

  /** The machines in planning order: each machine of the devices once. */
  lemma SortedMachines(fabric: Fabric, ids: seq<int>)
    ensures
      var machines := Sort(Machines(fabric, ids), NODE_LE);
      Distinct(machines) && forall x :: x in ids ==> fabric.NodeOf(x) in machines
  {
    var found := Machines(fabric, ids);
    var machines := Sort(found, NODE_LE);
    MachinesFacts(fabric, ids);
    SortPermutes(found, NODE_LE);
    assert SetOf(machines) == SetOf(found);
    DistinctCardinality(found);
    FullSetDistinct(machines);
  }

  /** How many full groups fit inside machines. */
  function Capacity(fabric: Fabric, tp: nat, gpuIds: seq<int>): nat
    requires tp >= 1
  {
    var ids := Sort(gpuIds, INT_LE);
    FitTotal(fabric, tp, ids, Sort(Machines(fabric, ids), NODE_LE))
  }

  lemma SingleMachine(fabric: Fabric, ids: seq<int>)
    requires |Machines(fabric, ids)| <= 1
    ensures forall x, y :: x in ids && y in ids ==> fabric.NodeOf(x) == fabric.NodeOf(y)
  {
    MachinesFacts(fabric, ids);
  }

  lemma PlacesSameIds(tp: nat, k: nat, a: seq<int>, b: seq<int>, p: seq<Group>)
    requires Places(tp, k, a, p) && Subset(a, b)
    ensures Places(tp, k, b, p)
  {
  }

  /**
   * Planning inside machines succeeds exactly when the requested groups exist, that is when the
   * full groups of the separate machines are enough, and then returns such groups.
   */
  lemma PlanInsideMachines(fabric: Fabric, tp: nat, k: nat, gpuIds: seq<int>)
    requires tp >= 1 && Distinct(gpuIds) && forall i :: i in gpuIds ==> i in fabric.nodeOf
    ensures Plan(fabric, tp, k, gpuIds, false).Ok? <==> k <= Capacity(fabric, tp, gpuIds)
    ensures Plan(fabric, tp, k, gpuIds, false).Ok? ==> Inside(fabric, tp, k, gpuIds, Plan(fabric, tp, k, gpuIds, false).value)
  {
    var ids := Sort(gpuIds, INT_LE);
    SortIncreasing(gpuIds);
    if tp == 1 || |Machines(fabric, ids)| <= 1 {
      PlanWithinOne(fabric, tp, k, gpuIds);
    } else {
      PlanAcrossMachines(fabric, tp, k, gpuIds);
    }
  }

  /** The case without a machine boundary to respect. */
  lemma PlanWithinOne(fabric: Fabric, tp: nat, k: nat, gpuIds: seq<int>)
    requires tp >= 1 && Distinct(gpuIds) && forall i :: i in gpuIds ==> i in fabric.nodeOf
    requires tp == 1 || |Machines(fabric, Sort(gpuIds, INT_LE))| <= 1
    ensures Plan(fabric, tp, k, gpuIds, false).Ok? <==> k <= Capacity(fabric, tp, gpuIds)
    ensures Plan(fabric, tp, k, gpuIds, false).Ok? ==> Inside(fabric, tp, k, gpuIds, Plan(fabric, tp, k, gpuIds, false).value)
  {
    var ids := Sort(gpuIds, INT_LE);
    SortIncreasing(gpuIds);
    CapacityFits(fabric, tp, k, gpuIds);
    SameWithoutBoundary(fabric, tp, k, gpuIds);
    PlanAnywhere(fabric, tp, k, gpuIds);
    if Times(tp, k) <= |ids| {
      var p := Plan(fabric, tp, k, gpuIds, true).value;
      CanonicalInside(fabric, tp, ids, p);
      hide *;
      InsideSameIds(fabric, tp, k, ids, gpuIds, p);
      InsideFits(fabric, tp, k, gpuIds, p);
    }
  }

  ghost predicate Inside(fabric: Fabric, tp: nat, k: nat, ids: seq<int>, p: seq<Group>) {
    Places(tp, k, ids, p) && InMachines(fabric, p) && AllIncreasing(p)
  }

  lemma SameWithoutBoundary(fabric: Fabric, tp: nat, k: nat, gpuIds: seq<int>)
    requires tp >= 1 && Distinct(gpuIds) && forall i :: i in gpuIds ==> i in fabric.nodeOf
    requires tp == 1 || |Machines(fabric, Sort(gpuIds, INT_LE))| <= 1
    ensures Plan(fabric, tp, k, gpuIds, false) == Plan(fabric, tp, k, gpuIds, true)
  {
    SortIncreasing(gpuIds);
  }

  lemma CanonicalInside(fabric: Fabric, tp: nat, ids: seq<int>, p: seq<Group>)
    requires Canonical(tp, ids, p) && (tp == 1 || |Machines(fabric, ids)| <= 1)
    ensures Inside(fabric, tp, |p|, ids, p)
  {
    CanonicalPlaces(tp, ids, p);
    if tp != 1 {
      SingleMachine(fabric, ids);
    }
    forall g | g in p ensures OneMachine(fabric, g) {
    }
  }

  lemma InsideSameIds(fabric: Fabric, tp: nat, k: nat, a: seq<int>, b: seq<int>, p: seq<Group>)
    requires Inside(fabric, tp, k, a, p) && forall x :: x in a ==> x in b
    ensures Inside(fabric, tp, k, b, p)
  {
  }

  /** Whatever is placed inside machines is within their capacity. */
  lemma InsideFits(fabric: Fabric, tp: nat, k: nat, gpuIds: seq<int>, p: seq<Group>)
    requires tp >= 1 && Distinct(gpuIds) && Places(tp, k, gpuIds, p) && InMachines(fabric, p)
    ensures k <= Capacity(fabric, tp, gpuIds)
  {
    var ids := Sort(gpuIds, INT_LE);
    SortIncreasing(gpuIds);
    SortedMachines(fabric, ids);
    PlacesSameIds(tp, k, gpuIds, ids, p);
    InMachinesBound(fabric, tp, k, ids, Sort(Machines(fabric, ids), NODE_LE), p);
  }

  /** Capacity never promises more groups than there are devices for. */
  lemma CapacityFits(fabric: Fabric, tp: nat, k: nat, gpuIds: seq<int>)
    requires tp >= 1 && Distinct(gpuIds)
    ensures k <= Capacity(fabric, tp, gpuIds) ==> Times(tp, k) <= |gpuIds|
  {
    var ids := Sort(gpuIds, INT_LE);
    var machines := Sort(Machines(fabric, ids), NODE_LE);
    SortIncreasing(gpuIds);
    SortedMachines(fabric, ids);
    NodeGroupsSound(fabric, tp, ids, machines);
    var all := NodeGroups(fabric, tp, ids, machines).value;
    hide *;
    if k <= |all| {
      SettledSize(fabric, tp, ids, machines, all);
      TimesMonotone(tp, k, |all|);
    }
  }

  lemma SettledSize(fabric: Fabric, tp: nat, ids: seq<int>, machines: seq<Option<string>>, p: seq<Group>)
    requires tp >= 1 && Increasing(ids) && Settled(fabric, tp, |p|, ids, machines, p)
    ensures Times(tp, |p|) <= |ids|
  {
    CanonicalForm(fabric, tp, |p|, ids, p);
    CanonicalFits(tp, ids, SortGroups(p));
  }

  lemma PlanGoesPerNode(fabric: Fabric, tp: nat, k: nat, gpuIds: seq<int>)
    requires tp > 1 && |Machines(fabric, Sort(gpuIds, INT_LE))| > 1
    requires forall i :: i in Sort(gpuIds, INT_LE) ==> i in fabric.nodeOf
    ensures
      var ids := Sort(gpuIds, INT_LE);
      Plan(fabric, tp, k, gpuIds, false) ==
        if Times(tp, k) > |ids| then Err(NotEnoughGpus) else PlanPerNode(fabric, tp, k, ids)
  {
    hide Sort, Machines, PlanPerNode;
  }

  /** The case of several machines: the first `k` of all full groups. */
  lemma PlanAcrossMachines(fabric: Fabric, tp: nat, k: nat, gpuIds: seq<int>)
    requires tp >= 1 && Distinct(gpuIds) && forall i :: i in gpuIds ==> i in fabric.nodeOf
    requires tp > 1 && |Machines(fabric, Sort(gpuIds, INT_LE))| > 1
    ensures Plan(fabric, tp, k, gpuIds, false).Ok? <==> k <= Capacity(fabric, tp, gpuIds)
    ensures Plan(fabric, tp, k, gpuIds, false).Ok? ==> Inside(fabric, tp, k, gpuIds, Plan(fabric, tp, k, gpuIds, false).value)
  {
    var ids := Sort(gpuIds, INT_LE);
    var machines := Sort(Machines(fabric, ids), NODE_LE);
    SortIncreasing(gpuIds);
    SortedMachines(fabric, ids);
    NodeGroupsSound(fabric, tp, ids, machines);
    CapacityFits(fabric, tp, k, gpuIds);
    PlanGoesPerNode(fabric, tp, k, gpuIds);
    var all := NodeGroups(fabric, tp, ids, machines).value;
    assert Inside(fabric, tp, |all|, ids, all);
    hide Inside, Settled, NodeGroups, Sort, Machines, Increasing, FitTotal, Plan, Distinct;
    if k <= |all| {
      InsidePrefix(fabric, tp, |all|, k, ids, all);
      InsideSameIds(fabric, tp, k, ids, gpuIds, all[..k]);
    }
  }

  lemma InsidePrefix(fabric: Fabric, tp: nat, n: nat, k: nat, ids: seq<int>, p: seq<Group>)
    requires Inside(fabric, tp, n, ids, p) && k <= n
    ensures Inside(fabric, tp, k, ids, p[..k])
  {
  }

  /** Completeness in its bare form: planning fails only when no such placement exists at all. */
  lemma PlanComplete(fabric: Fabric, tp: nat, k: nat, gpuIds: seq<int>, p: seq<Group>)
    requires tp >= 1 && Distinct(gpuIds) && forall i :: i in gpuIds ==> i in fabric.nodeOf
    requires Places(tp, k, gpuIds, p) && InMachines(fabric, p)
    ensures Plan(fabric, tp, k, gpuIds, false).Ok?
  {
    hide *;
    InsideFits(fabric, tp, k, gpuIds, p);
    PlanInsideMachines(fabric, tp, k, gpuIds);
  }
}

/** The planner object: the same search with memoised pair scores. */
module Planner {
  import opened Arithmetic
  import opened Common
  import opened Sorting
  import opened Hardware
  import opened Combinations
  import opened Partitions
  import opened GpuGroups

  class GPUGroupPlanner {
    const fabric: Fabric
    var scoreCache: map<(int, int), nat>

    /** Whatever is cached for an ordered pair is the pair's score. */
    ghost predicate Valid()
      reads this
    {
      forall a, b :: (a, b) in scoreCache ==> scoreCache[(a, b)] == fabric.PairScore(a, b)
    }

    constructor (snapshot: Snapshot)
      ensures Valid() && fabric == Fabric(snapshot.NodeMap(), snapshot.topology)
    {
      fabric := Fabric(snapshot.NodeMap(), snapshot.topology);
      scoreCache := map[];
    }

    method PairScore(a: int, b: int) returns (score: nat)
      requires Valid()
      modifies this`scoreCache
      ensures Valid() && score == fabric.PairScore(a, b)
    {
      var key := if a < b then (a, b) else (b, a);
      EdgeScoreOrderFree(fabric, a, b);
      if key !in scoreCache {
        if fabric.NodeOf(a) != fabric.NodeOf(b) {
          score := 0;
        } else if !fabric.topology.available {
          score := Max(1, 8 - (if a < b then b - a else a - b));
        } else {
          score := fabric.topology.Score(a, b);
        }
        scoreCache := scoreCache[key := score];
      }
      score := scoreCache[key];
    }

    method GroupScore(group: Group) returns (score: nat)
      requires Valid()
      modifies this`scoreCache
      ensures Valid() && score == fabric.GroupScore(group)
    {
      var sorted := Sort(group, INT_LE);
      ChooseLengths(sorted, 2);
      var pairs := Choose(sorted, 2);
      var i := 0;
      score := 0;
      while i < |pairs|
        invariant 0 <= i <= |pairs| && Valid()
        invariant score + fabric.PairTotal(pairs[i..]) == fabric.GroupScore(group)
      {
        var pair := PairScore(pairs[i][0], pairs[i][1]);
        assert pairs[i..][1..] == pairs[i + 1..];
        score := score + pair;
        i := i + 1;
      }
    }

    method PartitionScore(groups: seq<Group>) returns (score: nat)
      requires Valid()
      modifies this`scoreCache
      ensures Valid() && score == fabric.PartitionScore(groups)
    {
      score := 0;
      var i := 0;
      while i < |groups|
        invariant 0 <= i <= |groups| && Valid()
        invariant score + fabric.PartitionScore(groups[i..]) == fabric.PartitionScore(groups)
      {
        var group := GroupScore(groups[i]);
        assert groups[i..][1..] == groups[i + 1..];
        score := score + group;
        i := i + 1;
      }
    }

    /**
     * The nested `recurse`: from the groups already chosen, visit every way to finish the
     * partition with the remaining ids, keeping the best one seen.
     */
    method Recurse(tp: nat, k: nat, remaining: seq<int>, chosen: seq<Group>, seen: Best) returns (best: Best)
      requires Valid() && tp >= 1 && |chosen| <= k
      modifies this`scoreCache
      ensures Valid()
      ensures best == FoldBest(fabric, seen, Extend(chosen, Enumerate(tp, k - |chosen|, remaining)))
      decreases |remaining|
    {
      hide FoldBest, Anchored, Enumerate, Extend, Choose, Without;
      best := seen;
      var todo := k - |chosen|;
      TimesIsProduct(tp, todo);
      FoldShape(fabric, seen, chosen, tp, todo, remaining);
      if todo == 0 {
        var score := PartitionScore(chosen);
        if score > best.score {
          best := Best(Some(chosen), score);
        }
        return;
      }
      if |remaining| < tp * todo {
        return;
      }
      var combos := Choose(remaining[1..], tp - 1);
      var i := 0;
      ghost var branch := FoldBest(fabric, seen, Extend(chosen, Anchored(tp, todo, remaining, combos)));
      assert combos[0..] == combos;
      while i < |combos|
        invariant 0 <= i <= |combos| && Valid()
        invariant FoldBest(fabric, best, Extend(chosen, Anchored(tp, todo, remaining, combos[i..]))) == branch
      {
        FoldBranch(fabric, best, chosen, tp, todo, remaining, combos[i..]);
        assert combos[i..][1..] == combos[i + 1..];
        best := Recurse(tp, k, Without(remaining[1..], combos[i]), chosen + [[remaining[0]] + combos[i]], best);
        i := i + 1;
      }
      assert combos[i..] == [];
      FoldNoBranch(fabric, best, chosen, tp, todo, remaining);
      if |remaining| > tp * todo {
        best := Recurse(tp, k, remaining[1..], chosen, best);
      }
    }

    method ExhaustiveSearch(tp: nat, k: nat, ids: seq<int>) returns (r: Result<seq<Group>, PlanError>)
      requires Valid() && tp >= 1
      modifies this`scoreCache
      ensures Valid() && r == Exhaustive(fabric, tp, k, ids)
    {
      var best := Recurse(tp, k, ids, [], NOTHING_YET);
      ExtendNothing(Enumerate(tp, k, ids));
      match best.groups
      case Some(p) => r := Ok(p);
      case None => r := Err(NoPartition);
    }

    method Attachment(c: int, members: seq<int>) returns (total: nat)
      requires Valid()
      modifies this`scoreCache
      ensures Valid() && total == fabric.Attachment(c, members)
    {
      total := 0;
      var i := 0;
      while i < |members|
        invariant 0 <= i <= |members| && Valid()
        invariant total + fabric.Attachment(c, members[i..]) == fabric.Attachment(c, members)
      {
        var pair := PairScore(c, members[i]);
        assert members[i..][1..] == members[i + 1..];
        total := total + pair;
        i := i + 1;
      }
    }

    /** The best connected remaining device, lowest index first among equals. */
    method PickSeed(remaining: seq<int>) returns (seed: int)
      requires Valid() && remaining != []
      modifies this`scoreCache
      ensures Valid()
      ensures seed == remaining[ArgMax(remaining, fabric.SeedScores(remaining, remaining), |remaining|)]
    {
      hide Fabric.SeedScores, Fabric.Attachment, Without, Beats;
      ghost var scores := fabric.SeedScores(remaining, remaining);
      var best, i := 0, 1;
      SeedScoreAt(fabric, remaining, remaining, 0);
      var bestScore := Attachment(remaining[0], Without(remaining, [remaining[0]]));
      while i < |remaining|
        invariant 1 <= i <= |remaining| && Valid()
        invariant best == ArgMax(remaining, scores, i) && bestScore == scores[best]
      {
        SeedScoreAt(fabric, remaining, remaining, i);
        var score := Attachment(remaining[i], Without(remaining, [remaining[i]]));
        if Beats(score, remaining[i], bestScore, remaining[best]) {
          best, bestScore := i, score;
        }
        i := i + 1;
      }
      seed := remaining[best];
    }

    /** The remaining device best connected to the group, lowest index first among equals. */
    method PickNext(remaining: seq<int>, group: seq<int>) returns (next: int)
      requires Valid() && remaining != []
      modifies this`scoreCache
      ensures Valid()
      ensures next == remaining[ArgMax(remaining, fabric.NextScores(remaining, group), |remaining|)]
    {
      ghost var scores := fabric.NextScores(remaining, group);
      var best, i := 0, 1;
      NextScoreAt(fabric, remaining, group, 0);
      var bestScore := Attachment(remaining[0], group);
      while i < |remaining|
        invariant 1 <= i <= |remaining| && Valid()
        invariant best == ArgMax(remaining, scores, i) && bestScore == scores[best]
      {
        NextScoreAt(fabric, remaining, group, i);
        var score := Attachment(remaining[i], group);
        if Beats(score, remaining[i], bestScore, remaining[best]) {
          best, bestScore := i, score;
        }
        i := i + 1;
      }
      next := remaining[best];
    }

    /** Seed one group and grow it to full size. */
    method GrowGroup(tp: nat, ids: seq<int>) returns (group: seq<int>, remaining: seq<int>)
      requires Valid() && 1 <= tp <= |ids|
      modifies this`scoreCache
      ensures Valid() && (group, remaining) == FirstGreedy(fabric, tp, ids)
    {
      var seed := PickSeed(ids);
      group := [seed];
      remaining := RemoveFirst(ids, seed);
      while |group| < tp
        invariant |group| <= tp <= |group| + |remaining| && Valid()
        invariant Grow(fabric, tp, group, remaining) == FirstGreedy(fabric, tp, ids)
        decreases tp - |group|
      {
        var next := PickNext(remaining, group);
        group := group + [next];
        remaining := RemoveFirst(remaining, next);
      }
    }

    method GreedySearch(tp: nat, k: nat, ids: seq<int>) returns (groups: seq<Group>)
      requires Valid() && tp >= 1 && Times(tp, k) <= |ids|
      modifies this`scoreCache
      ensures Valid() && groups == Greedy(fabric, tp, k, ids)
    {
      hide FirstGreedy, Valid;
      groups := [];
      var remaining := ids;
      while |groups| < k
        invariant |groups| <= k && Valid()
        invariant Times(tp, k - |groups|) <= |remaining|
        invariant groups + Greedy(fabric, tp, k - |groups|, remaining) == Greedy(fabric, tp, k, ids)
        decreases k - |groups|
      {
        var group, left := GrowGroup(tp, remaining);
        GreedyUnfold(fabric, tp, k - |groups|, remaining, Sort(group, INT_LE), left);
        groups := groups + [Sort(group, INT_LE)];
        remaining := left;
      }
    }

    method PlanGroups(tp: nat, k: nat, gpuIds: seq<int>, allowCrossNode: bool) returns (r: Result<seq<Group>, PlanError>)
      requires Valid() && tp >= 1
      modifies this`scoreCache
      ensures Valid() && r == Plan(fabric, tp, k, gpuIds, allowCrossNode)
      decreases !allowCrossNode, 2
    {
      var ids := Sort(gpuIds, INT_LE);
      TimesIsProduct(tp, k);
      if tp * k > |ids| {
        return Err(NotEnoughGpus);
      }
      if tp == 1 {
        return Ok(Singletons(ids[..k]));
      }
      if !allowCrossNode {
        if exists i | i in ids :: i !in fabric.nodeOf {
          return Err(UnknownGpu);
        }
        if |Machines(fabric, ids)| > 1 {
          r := PlanNodeByNode(tp, k, ids);
          return;
        }
      }
      if |ids| <= EXHAUSTIVE_MAX_GPUS {
        r := ExhaustiveSearch(tp, k, ids);
        if r.Ok? {
          r := Ok(SortGroups(r.value));
        }
      } else {
        var groups := GreedySearch(tp, k, ids);
        r := Ok(SortGroups(groups));
      }
    }

    method PlanNodeByNode(tp: nat, k: nat, ids: seq<int>) returns (r: Result<seq<Group>, PlanError>)
      requires Valid() && tp >= 1
      modifies this`scoreCache
      ensures Valid() && r == PlanPerNode(fabric, tp, k, ids)
      decreases true, 1
    {
      hide Sort, Machines, OnMachine, Quotient, Valid;
      var machines := Sort(Machines(fabric, ids), NODE_LE);
      ghost var whole := NodeGroups(fabric, tp, ids, machines);
      var groups: seq<Group> := [];
      var m := 0;
      assert machines[0..] == machines;
      FollowedNone(whole);
      while m < |machines|
        invariant 0 <= m <= |machines| && Valid()
        invariant whole == Followed(groups, NodeGroups(fabric, tp, ids, machines[m..]))
      {
        var here := OnMachine(fabric, ids, machines[m]);
        var fit := Quotient(|here|, tp);
        assert machines[m..][1..] == machines[m + 1..];
        if fit > 0 {
          var first := PlanGroups(tp, fit, here, true);
          if first.Err? {
            return first;
          }
          FollowedMore(groups, first.value, NodeGroups(fabric, tp, ids, machines[m + 1..]));
          groups := groups + first.value;
        }
        m := m + 1;
      }
      assert machines[m..] == [];
      assert whole == Ok(groups) by {
        assert groups + [] == groups;
      }
      if |groups| < k {
        return Err(MachinesTooSmall);
      }
      return Ok(groups[..k]);
    }
  }

  /** Groups found so far followed by the outcome of the machines still to visit. */
  ghost function Followed(groups: seq<Group>, rest: Result<seq<Group>, PlanError>): Result<seq<Group>, PlanError> {
    match rest
    case Ok(more) => Ok(groups + more)
    case Err(e) => Err(e)
  }

  lemma FollowedNone(rest: Result<seq<Group>, PlanError>)
    ensures Followed([], rest) == rest
  {
    if rest.Ok? {
      assert [] + rest.value == rest.value;
    }
  }

  lemma FollowedMore(groups: seq<Group>, first: seq<Group>, rest: Result<seq<Group>, PlanError>)
    ensures Followed(groups + first, rest) == Followed(groups, Followed(first, rest))
  {
    if rest.Ok? {
      assert groups + first + rest.value == groups + (first + rest.value);
    }
  }

  lemma ExtendNothing(l: seq<seq<Group>>)
    ensures Extend([], l) == l
  {
    forall i | 0 <= i < |l| ensures Extend([], l)[i] == l[i] {
      assert [] + l[i] == l[i];
    }
  }

  /** The three cases of one call: a finished partition, too few ids, or the branches in order. */
  lemma FoldShape(fabric: Fabric, seen: Best, chosen: seq<Group>, tp: nat, todo: nat, remaining: seq<int>)
    requires tp >= 1
    ensures
      var whole := FoldBest(fabric, seen, Extend(chosen, Enumerate(tp, todo, remaining)));
      && (todo == 0 ==> whole == Better(fabric, seen, chosen))
      && (todo > 0 && |remaining| < Times(tp, todo) ==> whole == seen)
      && (todo > 0 && |remaining| >= Times(tp, todo) ==>
            var branch := FoldBest(fabric, seen, Extend(chosen, Anchored(tp, todo, remaining, Choose(remaining[1..], tp - 1))));
            whole == if |remaining| == Times(tp, todo) then branch
                     else FoldBest(fabric, branch, Extend(chosen, Enumerate(tp, todo, remaining[1..]))))
  {
    var all := Enumerate(tp, todo, remaining);
    if todo == 0 {
      assert all == [[]];
      FoldLeaf(fabric, seen, chosen);
    } else if |remaining| < Times(tp, todo) {
      assert Extend(chosen, all) == [];
    } else {
      var first := Anchored(tp, todo, remaining, Choose(remaining[1..], tp - 1));
      if |remaining| == Times(tp, todo) {
        assert all == first;
      } else {
        FoldExtendAppend(fabric, seen, chosen, first, Enumerate(tp, todo, remaining[1..]));
      }
    }
  }

  lemma FoldNoBranch(fabric: Fabric, best: Best, chosen: seq<Group>, tp: nat, todo: nat, remaining: seq<int>)
    requires tp >= 1 && todo >= 1 && remaining != []
    ensures FoldBest(fabric, best, Extend(chosen, Anchored(tp, todo, remaining, []))) == best
  {
    assert Extend(chosen, []) == [];
  }

  lemma FoldLeaf(fabric: Fabric, seen: Best, chosen: seq<Group>)
    ensures FoldBest(fabric, seen, Extend(chosen, [[]])) == Better(fabric, seen, chosen)
  {
    var l := Extend(chosen, [[]]);
    assert l[0] == chosen + [] == chosen;
    assert l[1..] == [];
    assert FoldBest(fabric, Better(fabric, seen, chosen), []) == Better(fabric, seen, chosen);
  }

  /** Visiting one combination of an anchored branch, then the others. */
  lemma FoldBranch(
      fabric: Fabric, best: Best, chosen: seq<Group>, tp: nat, k: nat, remaining: seq<int>, combos: seq<seq<int>>)
    requires tp >= 1 && k >= 1 && remaining != [] && combos != []
    ensures
      var group := [remaining[0]] + combos[0];
      var visited := FoldBest(fabric, best, Extend(chosen + [group], Enumerate(tp, k - 1, Without(remaining[1..], combos[0]))));
      FoldBest(fabric, best, Extend(chosen, Anchored(tp, k, remaining, combos)))
      == FoldBest(fabric, visited, Extend(chosen, Anchored(tp, k, remaining, combos[1..])))
  {
    var group := [remaining[0]] + combos[0];
    var l := Enumerate(tp, k - 1, Without(remaining[1..], combos[0]));
    FoldExtendAppend(fabric, best, chosen, Prepend(group, l), Anchored(tp, k, remaining, combos[1..]));
    ExtendPrepend(chosen, group, l);
  }

  lemma GreedyUnfold(fabric: Fabric, tp: nat, k: nat, remaining: seq<int>, group: Group, left: seq<int>)
    requires tp >= 1 && k >= 1 && Times(tp, k) <= |remaining|
    requires group == Sort(FirstGreedy(fabric, tp, remaining).0, INT_LE) && left == FirstGreedy(fabric, tp, remaining).1
    ensures Times(tp, k - 1) <= |left|
    ensures Greedy(fabric, tp, k, remaining) == [group] + Greedy(fabric, tp, k - 1, left)
  {
  }
}

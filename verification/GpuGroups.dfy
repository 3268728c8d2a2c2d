/** Assignment of GPUs to tensor-parallel groups. */
module GpuGroups {
  import opened Arithmetic
  import opened Common
  import opened Sorting
  import opened Hardware
  import opened Combinations
  import opened Partitions

  const EXHAUSTIVE_MAX_GPUS := 8
  const INT_LE: (int, int) -> bool := (a: int, b: int) => a <= b
  const LEAST_LE: (Group, Group) -> bool := (g: Group, h: Group) => Least(g) <= Least(h)
  const NODE_LE: (Option<string>, Option<string>) -> bool := (a: Option<string>, b: Option<string>) => NodeLe(a, b)

  datatype PlanError = NotEnoughGpus | UnknownGpu | NoPartition | MachinesTooSmall

  /** Smallest member of a group (zero for the empty group, which has none). */
  function Least(g: Group): int {
    if g == [] then 0 else if |g| == 1 then g[0] else Min(g[0], Least(g[1..]))
  }

  /** Named machines in string order, the unnamed machine last. */
  predicate NodeLe(a: Option<string>, b: Option<string>) {
    match a
    case None => b.None?
    case Some(x) => b.None? || StringLe(x, b.value)
  }

  predicate StringLe(a: string, b: string) {
    a == [] || (b != [] && (a[0] < b[0] || (a[0] == b[0] && StringLe(a[1..], b[1..]))))
  }

  /** What the planner knows about the devices: their machine and how they are wired. */
  datatype Fabric = Fabric(nodeOf: map<int, Option<string>>, topology: Topology) {

    function NodeOf(i: int): Option<string> {
      if i in nodeOf then nodeOf[i] else None
    }

    function PairScore(a: int, b: int): nat {
      if NodeOf(a) != NodeOf(b) then 0
      else if !topology.available then Max(1, 8 - (if a < b then b - a else a - b))
      else topology.Score(a, b)
    }

    /** Scores of the pairs of a group that are listed in `pairs`. */
    function PairTotal(pairs: seq<seq<int>>): nat
      requires forall p :: p in pairs ==> |p| == 2
    {
      if pairs == [] then 0 else PairScore(pairs[0][0], pairs[0][1]) + PairTotal(pairs[1..])
    }

    function GroupScore(g: Group): nat {
      var sorted := Sort(g, INT_LE);
      ChooseLengths(sorted, 2);
      PairTotal(Choose(sorted, 2))
    }

    function PartitionScore(p: seq<Group>): nat {
      if p == [] then 0 else GroupScore(p[0]) + PartitionScore(p[1..])
    }

    /** Total connectivity between one device and a list of devices. */
    function Attachment(c: int, members: seq<int>): nat {
      if members == [] then 0 else PairScore(c, members[0]) + Attachment(c, members[1..])
    }

    /** How well each candidate is connected to the other remaining devices. */
    function SeedScores(candidates: seq<int>, remaining: seq<int>): (r: seq<nat>)
      ensures |r| == |candidates|
    {
      if candidates == [] then []
      else [Attachment(candidates[0], Without(remaining, [candidates[0]]))] + SeedScores(candidates[1..], remaining)
    }

    /** How well each candidate is connected to the group being grown. */
    function NextScores(candidates: seq<int>, group: seq<int>): (r: seq<nat>)
      ensures |r| == |candidates|
    {
      if candidates == [] then []
      else [Attachment(candidates[0], group)] + NextScores(candidates[1..], group)
    }
  }

  lemma {:induction false} ChooseLengths(s: seq<int>, k: nat)
    ensures forall c :: c in Choose(s, k) ==> |c| == k
  {
    if k > 0 && s != [] {
      ChooseLengths(s[1..], k - 1);
      ChooseLengths(s[1..], k);
    }
  }

  lemma {:induction false} EdgeScoreOrderFree(fabric: Fabric, a: int, b: int)
    ensures fabric.PairScore(a, b) == fabric.PairScore(b, a)
  {
  }

  // ------------------------------------------------------------------ exhaustive search

  /** The `best` and `best_score` variables shared by the whole recursion. */
  datatype Best = Best(groups: Option<seq<Group>>, score: int)

  const NOTHING_YET := Best(None, -1)

  function Better(fabric: Fabric, best: Best, p: seq<Group>): Best {
    if fabric.PartitionScore(p) > best.score then Best(Some(p), fabric.PartitionScore(p)) else best
  }

  /** Visiting partitions in order, keeping the first of the highest score. */
  function FoldBest(fabric: Fabric, best: Best, l: seq<seq<Group>>): Best
    decreases |l|
  {
    if l == [] then best else FoldBest(fabric, Better(fabric, best, l[0]), l[1..])
  }

  function Extend(chosen: seq<Group>, l: seq<seq<Group>>): (r: seq<seq<Group>>)
    ensures |r| == |l|
  {
    seq(|l|, i requires 0 <= i < |l| => chosen + l[i])
  }

  lemma {:induction false} FoldAppend(fabric: Fabric, best: Best, a: seq<seq<Group>>, b: seq<seq<Group>>)
    decreases |a|
    ensures FoldBest(fabric, best, a + b) == FoldBest(fabric, FoldBest(fabric, best, a), b)
  {
    if a == [] {
      assert a + b == b;
    } else {
      assert (a + b)[1..] == a[1..] + b;
      FoldAppend(fabric, Better(fabric, best, a[0]), a[1..], b);
    }
  }

  lemma FoldExtendAppend(fabric: Fabric, best: Best, chosen: seq<Group>, a: seq<seq<Group>>, b: seq<seq<Group>>)
    ensures FoldBest(fabric, best, Extend(chosen, a + b))
         == FoldBest(fabric, FoldBest(fabric, best, Extend(chosen, a)), Extend(chosen, b))
  {
    assert Extend(chosen, a + b) == Extend(chosen, a) + Extend(chosen, b);
    FoldAppend(fabric, best, Extend(chosen, a), Extend(chosen, b));
  }

  lemma ExtendPrepend(chosen: seq<Group>, g: Group, l: seq<seq<Group>>)
    ensures Extend(chosen, Prepend(g, l)) == Extend(chosen + [g], l)
  {
    forall i | 0 <= i < |l| ensures chosen + ([g] + l[i]) == chosen + [g] + l[i] {
    }
    assert Extend(chosen, Prepend(g, l)) == Extend(chosen + [g], l);
  }

  function Exhaustive(fabric: Fabric, tp: nat, k: nat, ids: seq<int>): Result<seq<Group>, PlanError>
    requires tp >= 1
  {
    match FoldBest(fabric, NOTHING_YET, Enumerate(tp, k, ids)).groups
    case Some(p) => Ok(p)
    case None => Err(NoPartition)
  }

  // ------------------------------------------------------------------ greedy heuristic

  /** Position of `max(candidates, key=lambda c: (score of c, -c))` among the first `n` candidates. */
  function ArgMax(candidates: seq<int>, scores: seq<nat>, n: nat): (r: nat)
    requires 0 < n <= |candidates| == |scores|
    ensures r < n
  {
    if n == 1 then 0
    else
      var best := ArgMax(candidates, scores, n - 1);
      if Beats(scores[n - 1], candidates[n - 1], scores[best], candidates[best]) then n - 1 else best
  }

  predicate Beats(score: nat, c: int, otherScore: nat, other: int) {
    score > otherScore || (score == otherScore && c < other)
  }

  lemma {:induction false} ArgMaxBest(candidates: seq<int>, scores: seq<nat>, n: nat, i: nat)
    requires i < n <= |candidates| == |scores|
    ensures
      var best := ArgMax(candidates, scores, n);
      !Beats(scores[i], candidates[i], scores[best], candidates[best])
  {
    if i < n - 1 {
      ArgMaxBest(candidates, scores, n - 1, i);
    }
  }

  lemma {:induction false} SeedScoreAt(fabric: Fabric, candidates: seq<int>, remaining: seq<int>, i: nat)
    requires i < |candidates|
    ensures fabric.SeedScores(candidates, remaining)[i] == fabric.Attachment(candidates[i], Without(remaining, [candidates[i]]))
  {
    if i > 0 {
      SeedScoreAt(fabric, candidates[1..], remaining, i - 1);
    }
  }

  lemma {:induction false} NextScoreAt(fabric: Fabric, candidates: seq<int>, group: seq<int>, i: nat)
    requires i < |candidates|
    ensures fabric.NextScores(candidates, group)[i] == fabric.Attachment(candidates[i], group)
  {
    if i > 0 {
      NextScoreAt(fabric, candidates[1..], group, i - 1);
    }
  }

  function RemoveFirst(s: seq<int>, x: int): (r: seq<int>)
    requires x in s
    ensures |r| == |s| - 1
  {
    if s[0] == x then s[1..] else [s[0]] + RemoveFirst(s[1..], x)
  }

  /** Grow `group` to `tp` members, taking the best attached device each time. */
  function Grow(fabric: Fabric, tp: nat, group: seq<int>, remaining: seq<int>): (r: (seq<int>, seq<int>))
    requires |group| <= tp <= |group| + |remaining|
    ensures |r.0| == tp && |r.1| == |group| + |remaining| - tp
    decreases tp - |group|
  {
    if |group| == tp then (group, remaining)
    else
      var next := remaining[ArgMax(remaining, fabric.NextScores(remaining, group), |remaining|)];
      Grow(fabric, tp, group + [next], RemoveFirst(remaining, next))
  }

  /** One group seeded with the best connected device, and the devices left over. */
  function FirstGreedy(fabric: Fabric, tp: nat, remaining: seq<int>): (r: (seq<int>, seq<int>))
    requires 1 <= tp <= |remaining|
    ensures |r.0| == tp && |r.1| == |remaining| - tp
  {
    var seed := remaining[ArgMax(remaining, fabric.SeedScores(remaining, remaining), |remaining|)];
    Grow(fabric, tp, [seed], RemoveFirst(remaining, seed))
  }

  function Greedy(fabric: Fabric, tp: nat, k: nat, remaining: seq<int>): seq<Group>
    requires tp >= 1 && Times(tp, k) <= |remaining|
    decreases k
  {
    if k == 0 then []
    else
      var (group, left) := FirstGreedy(fabric, tp, remaining);
      [Sort(group, INT_LE)] + Greedy(fabric, tp, k - 1, left)
  }

  // ------------------------------------------------------------------ planning

  function SortGroups(p: seq<Group>): seq<Group> {
    var ordered := Sort(p, LEAST_LE);
    seq(|ordered|, i requires 0 <= i < |ordered| => Sort(ordered[i], INT_LE))
  }

  function Singletons(ids: seq<int>): seq<Group> {
    seq(|ids|, i requires 0 <= i < |ids| => [ids[i]])
  }

  /** Machines of the given devices, each once, in order of first appearance. */
  function Machines(fabric: Fabric, ids: seq<int>): seq<Option<string>> {
    if ids == [] then []
    else
      var n := |ids| - 1;
      var earlier := Machines(fabric, ids[..n]);
      if fabric.NodeOf(ids[n]) in earlier then earlier else earlier + [fabric.NodeOf(ids[n])]
  }

  function OnMachine(fabric: Fabric, ids: seq<int>, machine: Option<string>): (r: seq<int>)
    ensures |r| <= |ids|
    ensures forall x :: x in r <==> x in ids && fabric.NodeOf(x) == machine
  {
    if ids == [] then []
    else if fabric.NodeOf(ids[0]) == machine then [ids[0]] + OnMachine(fabric, ids[1..], machine)
    else OnMachine(fabric, ids[1..], machine)
  }

  function Plan(fabric: Fabric, tp: nat, k: nat, gpuIds: seq<int>, allowCrossNode: bool): Result<seq<Group>, PlanError>
    requires tp >= 1
    decreases !allowCrossNode, 2
  {
    var ids := Sort(gpuIds, INT_LE);
    if Times(tp, k) > |ids| then Err(NotEnoughGpus)
    else if tp == 1 then
      TimesOne(k);
      Ok(Singletons(ids[..k]))
    else if !allowCrossNode && exists i | i in ids :: i !in fabric.nodeOf then Err(UnknownGpu)
    else if !allowCrossNode && |Machines(fabric, ids)| > 1 then PlanPerNode(fabric, tp, k, ids)
    else if |ids| <= EXHAUSTIVE_MAX_GPUS then
      match Exhaustive(fabric, tp, k, ids)
      case Ok(p) => Ok(SortGroups(p))
      case Err(e) => Err(e)
    else Ok(SortGroups(Greedy(fabric, tp, k, ids)))
  }

  function PlanPerNode(fabric: Fabric, tp: nat, k: nat, ids: seq<int>): Result<seq<Group>, PlanError>
    requires tp >= 1
    decreases true, 1
  {
    var machines := Sort(Machines(fabric, ids), NODE_LE);
    match NodeGroups(fabric, tp, ids, machines)
    case Err(e) => Err(e)
    case Ok(groups) => if |groups| < k then Err(MachinesTooSmall) else Ok(groups[..k])
  }

  /** As many groups as fit on each machine, machine after machine. */
  function NodeGroups(fabric: Fabric, tp: nat, ids: seq<int>, machines: seq<Option<string>>): Result<seq<Group>, PlanError>
    requires tp >= 1
    decreases true, 0, |machines|
  {
    if machines == [] then Ok([])
    else
      var here := OnMachine(fabric, ids, machines[0]);
      var fit := Quotient(|here|, tp);
      if fit == 0 then NodeGroups(fabric, tp, ids, machines[1..])
      else
        match Plan(fabric, tp, fit, here, true)
        case Err(e) => Err(e)
        case Ok(first) =>
          match NodeGroups(fabric, tp, ids, machines[1..])
          case Err(e) => Err(e)
          case Ok(more) => Ok(first + more)
  }
}

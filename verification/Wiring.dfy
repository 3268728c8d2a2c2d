/** What pair scores say about the wiring of the devices, and what placements make of it. */
module Wiring {
  import opened Arithmetic
  import opened Common
  import opened Sorting
  import opened Hardware
  import opened Combinations
  import opened Partitions
  import opened GpuGroups
  import opened Placement

  // ------------------------------------------------------------------ one pair

  /** The interconnect classes, best first, each with its score. */
  const CLASSES: seq<(Relationship, nat)> :=
    [(NvLink, 100), (Pix, 40), (Pxb, 30), (Phb, 20), (Node, 10), (Sys, 5), (Unknown, 1), (Network, 0)]

  /** Edge `k` is the first recorded for the unordered pair, lower device first. */
  ghost predicate FirstEdge(edges: seq<Edge>, a: int, b: int, k: nat) {
    && Records(edges, a, b, k)
    && forall j: nat :: j < k ==> !Records(edges, a, b, j)
  }

  predicate Records(edges: seq<Edge>, a: int, b: int, k: nat) {
    k < |edges| && edges[k].a == Min(a, b) && edges[k].b == Max(a, b)
  }

  /** What an edge is worth: its class, or that of NVLink and one more for every link where NVLink was detected. */
  ghost predicate Worth(e: Edge, score: nat) {
    if e.nvlinkDetected then score == 100 + (if e.links.Some? then e.links.value else 0)
    else (e.relationship, score) in CLASSES
  }

  lemma {:induction false} FirstEdgeScore(edges: seq<Edge>, a: int, b: int, k: nat)
    requires FirstEdge(edges, a, b, k)
    ensures EdgeScore(edges, Min(a, b), Max(a, b)) == edges[k].Score()
  {
    if k > 0 {
      assert !Records(edges, a, b, 0);
      assert forall j: nat :: Records(edges[1..], a, b, j) <==> Records(edges, a, b, j + 1);
      FirstEdgeScore(edges[1..], a, b, k - 1);
    }
  }

  lemma {:induction false} NoEdgeScore(edges: seq<Edge>, a: int, b: int)
    requires forall k: nat :: !Records(edges, a, b, k)
    ensures EdgeScore(edges, Min(a, b), Max(a, b)) == 1
  {
    if edges != [] {
      assert !Records(edges, a, b, 0);
      assert forall j: nat :: Records(edges[1..], a, b, j) <==> Records(edges, a, b, j + 1);
      NoEdgeScore(edges[1..], a, b);
    }
  }

  lemma EdgeWorth(e: Edge)
    ensures Worth(e, e.Score())
  {
    assert CLASSES[0] == (NvLink, 100) && CLASSES[1] == (Pix, 40) && CLASSES[2] == (Pxb, 30) && CLASSES[3] == (Phb, 20);
    assert CLASSES[4] == (Node, 10) && CLASSES[5] == (Sys, 5) && CLASSES[6] == (Unknown, 1) && CLASSES[7] == (Network, 0);
  }

  /** With topology, two devices of one machine score what the first edge recorded for them is worth, or one if there is none. */
  lemma WiredPairScore(fabric: Fabric, a: int, b: int)
    requires fabric.topology.available && fabric.NodeOf(a) == fabric.NodeOf(b)
    ensures forall k: nat :: FirstEdge(fabric.topology.edges, a, b, k) ==>
              Worth(fabric.topology.edges[k], fabric.PairScore(a, b))
    ensures (forall k: nat :: !Records(fabric.topology.edges, a, b, k)) ==> fabric.PairScore(a, b) == 1
  {
    var edges := fabric.topology.edges;
    forall k: nat | FirstEdge(edges, a, b, k) ensures Worth(edges[k], fabric.PairScore(a, b)) {
      FirstEdgeScore(edges, a, b, k);
      EdgeWorth(edges[k]);
    }
    if forall k: nat :: !Records(edges, a, b, k) {
      NoEdgeScore(edges, a, b);
    }
  }

  predicate Classified(r: Relationship) {
    exists i :: 0 <= i < |CLASSES| && CLASSES[i].0 == r
  }

  /** The classes as listed are all there are, strictly better to worse. */
  lemma ClassesOrdered()
    ensures forall r: Relationship :: Classified(r)
    ensures forall i, j :: 0 <= i < j < |CLASSES| ==> CLASSES[i].0 != CLASSES[j].0 && CLASSES[i].1 > CLASSES[j].1
  {
    forall r: Relationship ensures Classified(r) {
      assert CLASSES[0].0 == NvLink && CLASSES[1].0 == Pix && CLASSES[2].0 == Pxb && CLASSES[3].0 == Phb;
      assert CLASSES[4].0 == Node && CLASSES[5].0 == Sys && CLASSES[6].0 == Unknown && CLASSES[7].0 == Network;
    }
  }

  /** Devices of different machines score nothing, whatever else is known of them. */
  lemma ForeignPairScore(snapshot: Snapshot, i: nat, j: nat)
    requires UniqueIndices(snapshot.gpus) && i < |snapshot.gpus| && j < |snapshot.gpus|
    requires snapshot.gpus[i].nodeId != snapshot.gpus[j].nodeId
    ensures Fabric(snapshot.NodeMap(), snapshot.topology).PairScore(snapshot.gpus[i].index, snapshot.gpus[j].index) == 0
  {
    NodeMapAt(snapshot.gpus, i);
    NodeMapAt(snapshot.gpus, j);
  }

  /** Without topology, neighbours score seven, and each step further apart costs one until only one is left. */
  lemma BlindPairScore(fabric: Fabric, a: int, b: int, c: int)
    requires !fabric.topology.available && a < b < c
    requires fabric.NodeOf(a) == fabric.NodeOf(b) == fabric.NodeOf(c)
    ensures b == a + 1 ==> fabric.PairScore(a, b) == 7
    ensures c == b + 1 ==> fabric.PairScore(a, c) == Max(1, fabric.PairScore(a, b) - 1)
    ensures fabric.PairScore(a, c) >= 1 && (fabric.PairScore(a, c) < fabric.PairScore(a, b) || fabric.PairScore(a, b) == 1)
    ensures fabric.PairScore(b, a) == fabric.PairScore(a, b)
  {
  }

  // ------------------------------------------------------------------ groups

  /** Every device of the group with every later one. */
  function PairSum(fabric: Fabric, g: Group): nat {
    if g == [] then 0 else Links(fabric, g[0], g[1..]) + PairSum(fabric, g[1..])
  }

  function Links(fabric: Fabric, x: int, g: Group): nat {
    if g == [] then 0 else fabric.PairScore(x, g[0]) + Links(fabric, x, g[1..])
  }

  lemma {:induction false} TotalAppend(fabric: Fabric, a: seq<seq<int>>, b: seq<seq<int>>)
    requires forall p :: p in a ==> |p| == 2
    requires forall p :: p in b ==> |p| == 2
    ensures forall p :: p in a + b ==> |p| == 2
    ensures fabric.PairTotal(a + b) == fabric.PairTotal(a) + fabric.PairTotal(b)
  {
    if a == [] {
      assert a + b == b;
    } else {
      assert (a + b)[1..] == a[1..] + b;
      TotalAppend(fabric, a[1..], b);
    }
  }

  lemma ChooseOne(g: Group)
    requires g != []
    ensures Choose(g, 1) == [[g[0]]] + Choose(g[1..], 1)
  {
    var first := Prepend(g[0], Choose(g[1..], 0));
    assert |first| == 1 && first[0] == [g[0]];
    assert first == [[g[0]]];
  }

  lemma {:induction false} StarTotal(fabric: Fabric, x: int, g: Group)
    ensures forall p :: p in Prepend(x, Choose(g, 1)) ==> |p| == 2
    ensures fabric.PairTotal(Prepend(x, Choose(g, 1))) == Links(fabric, x, g)
  {
    ChooseLengths(g, 1);
    if g != [] {
      StarTotal(fabric, x, g[1..]);
      ChooseOne(g);
      hide Choose;
      var star := Prepend(x, Choose(g, 1));
      assert star[0] == [x, g[0]];
      assert star[1..] == Prepend(x, Choose(g[1..], 1));
    }
  }

  lemma {:induction false} ChooseTotal(fabric: Fabric, g: Group)
    ensures forall p :: p in Choose(g, 2) ==> |p| == 2
    ensures fabric.PairTotal(Choose(g, 2)) == PairSum(fabric, g)
  {
    ChooseLengths(g, 2);
    if g != [] {
      StarTotal(fabric, g[0], g[1..]);
      ChooseTotal(fabric, g[1..]);
      TotalAppend(fabric, Prepend(g[0], Choose(g[1..], 1)), Choose(g[1..], 2));
    }
  }

  lemma {:induction false} LinksInsert(fabric: Fabric, x: int, y: int, g: Group)
    ensures Links(fabric, x, Insert(y, g, INT_LE)) == fabric.PairScore(x, y) + Links(fabric, x, g)
  {
    if g == [] || INT_LE(y, g[0]) {
      assert ([y] + g)[1..] == g;
    } else {
      LinksInsert(fabric, x, y, g[1..]);
      assert ([g[0]] + Insert(y, g[1..], INT_LE))[1..] == Insert(y, g[1..], INT_LE);
    }
  }

  lemma {:induction false} PairSumInsert(fabric: Fabric, x: int, g: Group)
    ensures PairSum(fabric, Insert(x, g, INT_LE)) == Links(fabric, x, g) + PairSum(fabric, g)
  {
    if g == [] || INT_LE(x, g[0]) {
      assert ([x] + g)[1..] == g;
    } else {
      PairSumInsert(fabric, x, g[1..]);
      LinksInsert(fabric, g[0], x, g[1..]);
      EdgeScoreOrderFree(fabric, x, g[0]);
      assert ([g[0]] + Insert(x, g[1..], INT_LE))[1..] == Insert(x, g[1..], INT_LE);
    }
  }

  lemma {:induction false} SortLinks(fabric: Fabric, x: int, g: Group)
    ensures Links(fabric, x, Sort(g, INT_LE)) == Links(fabric, x, g)
  {
    if g != [] {
      SortLinks(fabric, x, g[1..]);
      LinksInsert(fabric, x, g[0], Sort(g[1..], INT_LE));
    }
  }

  lemma {:induction false} SortPairSum(fabric: Fabric, g: Group)
    ensures PairSum(fabric, Sort(g, INT_LE)) == PairSum(fabric, g)
  {
    if g != [] {
      SortPairSum(fabric, g[1..]);
      PairSumInsert(fabric, g[0], Sort(g[1..], INT_LE));
      SortLinks(fabric, g[0], g[1..]);
    }
  }

  /** A group's score counts every pair of its devices once, in whatever order they are given. */
  lemma GroupScoreExact(fabric: Fabric, g: Group)
    ensures fabric.GroupScore(g) == PairSum(fabric, g)
  {
    ChooseTotal(fabric, Sort(g, INT_LE));
    SortPairSum(fabric, g);
  }

  lemma {:induction false} AttachmentLinks(fabric: Fabric, x: int, g: Group)
    ensures fabric.Attachment(x, g) == Links(fabric, x, g)
  {
    if g != [] {
      AttachmentLinks(fabric, x, g[1..]);
    }
  }

  lemma {:induction false} LinksAppend(fabric: Fabric, x: int, g: Group, y: int)
    ensures Links(fabric, x, g + [y]) == Links(fabric, x, g) + fabric.PairScore(x, y)
  {
    if g != [] {
      assert (g + [y])[1..] == g[1..] + [y];
      LinksAppend(fabric, x, g[1..], y);
    }
  }

  lemma {:induction false} PairSumAppend(fabric: Fabric, g: Group, x: int)
    ensures PairSum(fabric, g + [x]) == PairSum(fabric, g) + Links(fabric, x, g)
  {
    if g != [] {
      assert (g + [x])[1..] == g[1..] + [x];
      PairSumAppend(fabric, g[1..], x);
      LinksAppend(fabric, g[0], g[1..], x);
      EdgeScoreOrderFree(fabric, x, g[0]);
    }
  }

  /** How well a device is attached to a group is what the group's score gains by it. */
  lemma AttachmentIsGain(fabric: Fabric, g: Group, x: int)
    ensures fabric.GroupScore(g + [x]) == fabric.GroupScore(g) + fabric.Attachment(x, g)
  {
    GroupScoreExact(fabric, g);
    GroupScoreExact(fabric, g + [x]);
    PairSumAppend(fabric, g, x);
    AttachmentLinks(fabric, x, g);
  }

  /** The greedy path gives a group the free device that raises its score most, the lowest id among equals. */
  lemma GrowRaisesMost(fabric: Fabric, tp: nat, group: seq<int>, remaining: seq<int>, i: nat, x: int)
    requires |group| <= i < tp <= |group| + |remaining| && Increasing(remaining)
    requires
      var (g, left) := Grow(fabric, tp, group, remaining);
      x in g[i..] + left
    ensures
      var g := Grow(fabric, tp, group, remaining).0;
      var mine, other := fabric.GroupScore(g[..i] + [g[i]]), fabric.GroupScore(g[..i] + [x]);
      other < mine || (other == mine && g[i] <= x)
  {
    GrowPicksBest(fabric, tp, group, remaining, i);
    var g := Grow(fabric, tp, group, remaining).0;
    AttachmentIsGain(fabric, g[..i], g[i]);
    AttachmentIsGain(fabric, g[..i], x);
    hide Grow, BestNext;
  }

  lemma {:induction false} NotThere(s: seq<int>, x: int)
    requires x !in s
    ensures Without(s, [x]) == s
  {
    if s != [] {
      assert s == [s[0]] + s[1..];
      NotThere(s[1..], x);
    }
  }

  lemma {:induction false} PutBack(s: seq<int>, x: int)
    requires Increasing(s) && x in s
    ensures Insert(x, Without(s, [x]), INT_LE) == s
  {
    IncreasingTail(s);
    if s[0] == x {
      NotThere(s[1..], x);
      assert s == [x] + s[1..];
    } else {
      PutBack(s[1..], x);
      assert ([s[0]] + Without(s[1..], [x]))[1..] == Without(s[1..], [x]);
    }
  }

  lemma LossIsAttachment(fabric: Fabric, s: seq<int>, x: int)
    requires Increasing(s) && x in s
    ensures fabric.GroupScore(s) == fabric.GroupScore(Without(s, [x])) + fabric.Attachment(x, Without(s, [x]))
  {
    PutBack(s, x);
    PairSumInsert(fabric, x, Without(s, [x]));
    GroupScoreExact(fabric, s);
    GroupScoreExact(fabric, Without(s, [x]));
    AttachmentLinks(fabric, x, Without(s, [x]));
  }

  /** The greedy path starts a group with the device the others would miss most, the lowest id among equals. */
  lemma SeedMissedMost(fabric: Fabric, tp: nat, remaining: seq<int>, x: int)
    requires 1 <= tp <= |remaining| && Increasing(remaining) && x in remaining
    ensures
      var seed := FirstGreedy(fabric, tp, remaining).0[0];
      && seed in remaining
      && var without, other := fabric.GroupScore(Without(remaining, [seed])), fabric.GroupScore(Without(remaining, [x]));
         without < other || (without == other && seed <= x)
  {
    var scores := fabric.SeedScores(remaining, remaining);
    var best := ArgMax(remaining, scores, |remaining|);
    var seed := remaining[best];
    RemoveFirstFacts(remaining, seed);
    GrowKeeps(fabric, tp, [seed], RemoveFirst(remaining, seed));
    assert FirstGreedy(fabric, tp, remaining).0[..1] == [seed];
    assert FirstGreedy(fabric, tp, remaining).0[0] == seed;
    var i :| 0 <= i < |remaining| && remaining[i] == x;
    ArgMaxBest(remaining, scores, |remaining|, i);
    SeedScoreAt(fabric, remaining, remaining, i);
    SeedScoreAt(fabric, remaining, remaining, best);
    LossIsAttachment(fabric, remaining, x);
    LossIsAttachment(fabric, remaining, seed);
    hide Grow, FirstGreedy, ArgMax;
  }

  // ------------------------------------------------------------------ the law the scores serve

  /** The two devices are of one machine and joined by NVLink, as topology records it. */
  ghost predicate NvLinked(fabric: Fabric, a: int, b: int) {
    && fabric.topology.available && fabric.NodeOf(a) == fabric.NodeOf(b)
    && exists k: nat :: FirstEdge(fabric.topology.edges, a, b, k) && IsNvLink(fabric.topology.edges[k])
  }

  predicate IsNvLink(e: Edge) {
    e.nvlinkDetected || e.relationship.NvLink?
  }

  /** How many links beyond the bare fact of NVLink an edge reports. */
  function LinkCount(e: Edge): nat {
    if e.nvlinkDetected && e.links.Some? then e.links.value else 0
  }

  /** All NVLink edges report `n` links. */
  ghost predicate EvenLinks(fabric: Fabric, n: nat) {
    forall k :: 0 <= k < |fabric.topology.edges| && IsNvLink(fabric.topology.edges[k]) ==>
      LinkCount(fabric.topology.edges[k]) == n
  }

  ghost predicate AllNvLinked(fabric: Fabric, g: Group) {
    forall i, j :: 0 <= i < j < |g| ==> NvLinked(fabric, g[i], g[j])
  }

  lemma {:induction false} SomeFirstEdge(edges: seq<Edge>, a: int, b: int, k: nat) returns (first: nat)
    requires Records(edges, a, b, k)
    ensures FirstEdge(edges, a, b, first)
  {
    if j: nat :| j < k && Records(edges, a, b, j) {
      first := SomeFirstEdge(edges, a, b, j);
    } else {
      first := k;
    }
  }

  /** Pairs joined by NVLink score as high as any, and only they do. */
  lemma NvLinkedScoresTop(fabric: Fabric, n: nat, a: int, b: int)
    requires fabric.topology.available && EvenLinks(fabric, n)
    ensures fabric.PairScore(a, b) <= 100 + n
    ensures fabric.PairScore(a, b) == 100 + n <==> NvLinked(fabric, a, b)
  {
    var edges := fabric.topology.edges;
    if fabric.NodeOf(a) == fabric.NodeOf(b) {
      WiredPairScore(fabric, a, b);
      if k: nat :| Records(edges, a, b, k) {
        var first := SomeFirstEdge(edges, a, b, k);
        forall other: nat | FirstEdge(edges, a, b, other) ensures other == first {
        }
        hide Fabric.PairScore;
      }
    }
  }

  lemma {:induction false} TopLinks(fabric: Fabric, n: nat, x: int, g: Group)
    requires fabric.topology.available && EvenLinks(fabric, n)
    ensures Links(fabric, x, g) <= |g| * (100 + n)
    ensures Links(fabric, x, g) == |g| * (100 + n) <==> forall i :: 0 <= i < |g| ==> NvLinked(fabric, x, g[i])
  {
    hide Fabric.PairScore, NvLinked, EvenLinks;
    if g != [] {
      TopLinks(fabric, n, x, g[1..]);
      NvLinkedScoresTop(fabric, n, x, g[0]);
      assert |g| * (100 + n) == (100 + n) + |g[1..]| * (100 + n);
      assert forall i :: 1 <= i < |g| ==> g[i] == g[1..][i - 1];
    }
  }

  /** The number of pairs in a group of `size`. */
  function Pairs(size: nat): nat {
    if size == 0 then 0 else size - 1 + Pairs(size - 1)
  }

  lemma {:induction false} TopGroup(fabric: Fabric, n: nat, g: Group)
    requires fabric.topology.available && EvenLinks(fabric, n)
    ensures PairSum(fabric, g) <= Pairs(|g|) * (100 + n)
    ensures PairSum(fabric, g) == Pairs(|g|) * (100 + n) <==> AllNvLinked(fabric, g)
  {
    hide Fabric.PairScore, NvLinked, EvenLinks;
    if g != [] {
      TopLinks(fabric, n, g[0], g[1..]);
      TopGroup(fabric, n, g[1..]);
      assert Pairs(|g|) * (100 + n) == |g[1..]| * (100 + n) + Pairs(|g[1..]|) * (100 + n);
      assert forall i :: 1 <= i < |g| ==> g[i] == g[1..][i - 1];
      if AllNvLinked(fabric, g) {
        forall i, j | 0 <= i < j < |g[1..]| ensures NvLinked(fabric, g[1..][i], g[1..][j]) {
          assert NvLinked(fabric, g[i + 1], g[j + 1]);
        }
      }
    }
  }

  lemma {:induction false} TopTotal(fabric: Fabric, top: nat, p: seq<Group>)
    requires forall g :: g in p ==> fabric.GroupScore(g) <= top
    ensures fabric.PartitionScore(p) <= Times(top, |p|)
    ensures fabric.PartitionScore(p) == Times(top, |p|) <==> forall g :: g in p ==> fabric.GroupScore(g) == top
  {
    hide Fabric.GroupScore;
    if p != [] {
      TopTotal(fabric, top, p[1..]);
      assert p == [p[0]] + p[1..];
    }
  }

  lemma TopPartition(fabric: Fabric, n: nat, tp: nat, p: seq<Group>)
    requires fabric.topology.available && EvenLinks(fabric, n) && forall g :: g in p ==> |g| == tp
    ensures fabric.PartitionScore(p) <= Times(Pairs(tp) * (100 + n), |p|)
    ensures fabric.PartitionScore(p) == Times(Pairs(tp) * (100 + n), |p|) <==> forall g :: g in p ==> AllNvLinked(fabric, g)
  {
    hide EvenLinks, AllNvLinked, Fabric.GroupScore, Fabric.PartitionScore, Pairs, Times, PairSum;
    var top := Pairs(tp) * (100 + n);
    forall g | g in p ensures fabric.GroupScore(g) <= top && (fabric.GroupScore(g) == top <==> AllNvLinked(fabric, g)) {
      GroupScoreExact(fabric, g);
      TopGroup(fabric, n, g);
    }
    TopTotal(fabric, top, p);
  }

  lemma NvLinkedInside(fabric: Fabric, p: seq<Group>)
    requires forall g :: g in p ==> AllNvLinked(fabric, g)
    ensures InMachines(fabric, p)
  {
    forall g, x, y | g in p && x in g && y in g ensures fabric.NodeOf(x) == fabric.NodeOf(y) {
      var i :| 0 <= i < |g| && g[i] == x;
      var j :| 0 <= j < |g| && g[j] == y;
      if i < j {
        assert NvLinked(fabric, g[i], g[j]);
      } else if j < i {
        assert NvLinked(fabric, g[j], g[i]);
      }
    }
  }

  /**
   * Up to eight devices, all NVLinks with the same number of links: if the groups asked for can be
   * formed of NVLinked devices only, the plan forms such groups. On one machine the same holds of
   * planning that respects machine boundaries.
   */
  lemma NvLinkedGroupsFound(fabric: Fabric, tp: nat, k: nat, gpuIds: seq<int>, n: nat, p: seq<Group>)
    requires tp >= 1 && Distinct(gpuIds) && |gpuIds| <= EXHAUSTIVE_MAX_GPUS
    requires fabric.topology.available && EvenLinks(fabric, n)
    requires Places(tp, k, gpuIds, p) && forall g :: g in p ==> AllNvLinked(fabric, g)
    ensures
      var r := Plan(fabric, tp, k, gpuIds, true);
      r.Ok? && |r.value| == k && forall g :: g in r.value ==> |g| == tp && AllNvLinked(fabric, g)
    ensures (forall i :: i in gpuIds ==> i in fabric.nodeOf) && |Machines(fabric, Sort(gpuIds, INT_LE))| <= 1 ==>
              Plan(fabric, tp, k, gpuIds, false) == Plan(fabric, tp, k, gpuIds, true)
  {
    var ids := Sort(gpuIds, INT_LE);
    SortIncreasing(gpuIds);
    PlacesSameIds(tp, k, gpuIds, ids, p);
    NvLinkedInside(fabric, p);
    InsideFits(fabric, tp, k, gpuIds, p);
    CapacityFits(fabric, tp, k, gpuIds);
    PlanAnywhere(fabric, tp, k, gpuIds);
    var q := Plan(fabric, tp, k, gpuIds, true).value;
    TopPartition(fabric, n, tp, p);
    CanonicalPlaces(tp, ids, q);
    TopPartition(fabric, n, tp, q);
    if (forall i :: i in gpuIds ==> i in fabric.nodeOf) && |Machines(fabric, ids)| <= 1 {
      SameWithoutBoundary(fabric, tp, k, gpuIds);
    }
    hide Plan, AllNvLinked, EvenLinks;
  }
}

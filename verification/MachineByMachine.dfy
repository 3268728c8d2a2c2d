/** Planning machine by machine: when the groups it returns are the best there are, and when they need not be. */
module MachineByMachine {
  import opened Arithmetic
  import opened Common
  import opened Sorting
  import opened Hardware
  import opened Combinations
  import opened Partitions
  import opened GpuGroups
  import opened Placement
  import opened Wiring

  /** No machine has more devices than the exhaustive search takes on. */
  ghost predicate SmallMachines(fabric: Fabric, ids: seq<int>, machines: seq<Option<string>>) {
    forall m :: m in machines ==> |OnMachine(fabric, ids, m)| <= EXHAUSTIVE_MAX_GPUS
  }

  // ------------------------------------------------------------------ asking for all the groups there are

  lemma {:induction false} ScoreAppend(fabric: Fabric, p: seq<Group>, q: seq<Group>)
    ensures fabric.PartitionScore(p + q) == fabric.PartitionScore(p) + fabric.PartitionScore(q)
  {
    if p == [] {
      assert p + q == q;
    } else {
      assert (p + q)[1..] == p[1..] + q;
      ScoreAppend(fabric, p[1..], q);
    }
  }

  lemma {:induction false} SplitScore(fabric: Fabric, p: seq<Group>, machine: Option<string>)
    requires NonEmptyGroups(p)
    ensures fabric.PartitionScore(p) ==
              fabric.PartitionScore(Split(fabric, p, machine, true)) + fabric.PartitionScore(Split(fabric, p, machine, false))
  {
    hide Fabric.GroupScore;
    if p != [] {
      SplitScore(fabric, p[1..], machine);
      var on, off := Split(fabric, p[1..], machine, true), Split(fabric, p[1..], machine, false);
      assert ([p[0]] + on)[1..] == on && ([p[0]] + off)[1..] == off;
    }
  }

  /** What is placed on one machine scores no more than the plan for that machine. */
  lemma OneMachineBest(fabric: Fabric, tp: nat, ids: seq<int>, machine: Option<string>, p: seq<Group>)
    requires tp >= 1 && Increasing(ids) && Places(tp, |p|, ids, p) && NonEmptyGroups(p)
    requires exists machines :: OnMachines(fabric, p, machines)
    requires |OnMachine(fabric, ids, machine)| <= EXHAUSTIVE_MAX_GPUS
    requires |Split(fabric, p, machine, true)| == Quotient(|OnMachine(fabric, ids, machine)|, tp)
    ensures
      var here := OnMachine(fabric, ids, machine);
      var r := Plan(fabric, tp, Quotient(|here|, tp), here, true);
      r.Ok? && fabric.PartitionScore(Split(fabric, p, machine, true)) <= fabric.PartitionScore(r.value)
  {
    var here, on := OnMachine(fabric, ids, machine), Split(fabric, p, machine, true);
    SplitDisjoint(fabric, p, machine, true);
    forall g | g in on ensures Subset(g, here) {
      assert g[0] in g && g in p;
    }
    assert Places(tp, |on|, here, on);
    OnMachineIncreasing(fabric, ids, machine);
    MachinePlan(fabric, tp, here);
  }

  /** The plan for the devices of one machine. */
  lemma MachinePlan(fabric: Fabric, tp: nat, here: seq<int>)
    requires tp >= 1 && Increasing(here) && |here| <= EXHAUSTIVE_MAX_GPUS
    ensures Plan(fabric, tp, Quotient(|here|, tp), here, true).Ok?
    ensures OptimalPlacement(fabric, tp, Quotient(|here|, tp), here, Plan(fabric, tp, Quotient(|here|, tp), here, true).value)
  {
    QuotientFits(|here|, tp, Quotient(|here|, tp));
    PlanAnywhere(fabric, tp, Quotient(|here|, tp), here);
    SortFixed(here, INT_LE);
  }

  lemma {:induction false} NodeGroupsBest(fabric: Fabric, tp: nat, ids: seq<int>, machines: seq<Option<string>>, p: seq<Group>)
    requires tp >= 1 && Increasing(ids) && Distinct(machines) && SmallMachines(fabric, ids, machines)
    requires Places(tp, FitTotal(fabric, tp, ids, machines), ids, p) && OnMachines(fabric, p, machines)
    ensures NodeGroups(fabric, tp, ids, machines).Ok?
    ensures fabric.PartitionScore(p) <= fabric.PartitionScore(NodeGroups(fabric, tp, ids, machines).value)
    decreases |machines|
  {
    NodeGroupsSound(fabric, tp, ids, machines);
    PlacesNonEmpty(tp, |p|, ids, p);
    if machines != [] {
      hide Places, InMachines, OnMachines, NonEmptyGroups, Split, OnMachine, Increasing, PairwiseDisjoint, Settled;
      var on, off := Split(fabric, p, machines[0], true), Split(fabric, p, machines[0], false);
      SplitFacts(fabric, p, machines[0]);
      SplitScore(fabric, p, machines[0]);
      OneMachineBound(fabric, tp, ids, machines[0], p);
      OtherMachines(fabric, tp, ids, machines, p);
      InMachinesBound(fabric, tp, |off|, ids, machines[1..], off);
      NodeGroupsBest(fabric, tp, ids, machines[1..], off);
      OneMachineBest(fabric, tp, ids, machines[0], p);
      var here := OnMachine(fabric, ids, machines[0]);
      var more := NodeGroups(fabric, tp, ids, machines[1..]).value;
      if Quotient(|here|, tp) > 0 {
        ScoreAppend(fabric, Plan(fabric, tp, Quotient(|here|, tp), here, true).value, more);
      }
    }
  }

  /** Several machines to plan for, none of them large. */
  ghost predicate SeveralMachines(fabric: Fabric, tp: nat, gpuIds: seq<int>) {
    && tp >= 2 && Distinct(gpuIds) && (forall i :: i in gpuIds ==> i in fabric.nodeOf)
    && |Machines(fabric, Sort(gpuIds, INT_LE))| > 1
    && SmallMachines(fabric, Sort(gpuIds, INT_LE), Machines(fabric, Sort(gpuIds, INT_LE)))
  }

  /** The plan is at least as well connected as any other placement of as many groups inside machines. */
  ghost predicate BestInside(fabric: Fabric, tp: nat, k: nat, gpuIds: seq<int>) {
    && tp >= 1
    && var r := Plan(fabric, tp, k, gpuIds, false);
    && r.Ok?
    && forall p :: Inside(fabric, tp, k, gpuIds, p) ==> fabric.PartitionScore(p) <= fabric.PartitionScore(r.value)
  }

  /** Asking several machines for all the groups that fit gets the best there are. */
  lemma AllGroupsBest(fabric: Fabric, tp: nat, gpuIds: seq<int>)
    requires SeveralMachines(fabric, tp, gpuIds)
    ensures BestInside(fabric, tp, Capacity(fabric, tp, gpuIds), gpuIds)
  {
    var ids, k := Sort(gpuIds, INT_LE), Capacity(fabric, tp, gpuIds);
    var machines := Sort(Machines(fabric, ids), NODE_LE);
    SortIncreasing(gpuIds);
    SortedMachines(fabric, ids);
    SortPermutes(Machines(fabric, ids), NODE_LE);
    NodeGroupsSound(fabric, tp, ids, machines);
    PlanAcrossMachines(fabric, tp, k, gpuIds);
    PlanGoesPerNode(fabric, tp, k, gpuIds);
    CapacityFits(fabric, tp, k, gpuIds);
    var all := NodeGroups(fabric, tp, ids, machines).value;
    assert all[..k] == all;
    assert SmallMachines(fabric, ids, machines);
    hide Plan, NodeGroups, Sort, Machines, FitTotal, Settled;
    forall p | Inside(fabric, tp, k, gpuIds, p) ensures fabric.PartitionScore(p) <= fabric.PartitionScore(all) {
      PlacesSameIds(tp, k, gpuIds, ids, p);
      OnTheirMachines(fabric, tp, k, ids, machines, p);
      NodeGroupsBest(fabric, tp, ids, machines, p);
    }
  }

  lemma OnTheirMachines(fabric: Fabric, tp: nat, k: nat, ids: seq<int>, machines: seq<Option<string>>, p: seq<Group>)
    requires Places(tp, k, ids, p) && InMachines(fabric, p) && forall x :: x in ids ==> fabric.NodeOf(x) in machines
    ensures OnMachines(fabric, p, machines)
  {
  }

  // ------------------------------------------------------------------ one good pair

  /** The same machines, with one NVLink between two devices and nothing else known of the wiring. */
  function WithOneLink(fabric: Fabric, x: int, y: int): Fabric {
    fabric.(topology := Topology([Edge(Min(x, y), Max(x, y), NvLink, true, None)], true))
  }

  function Bonus(g: Group, x: int, y: int): nat {
    if x != y && x in g && y in g then 99 else 0
  }

  lemma OneLinkPair(fabric: Fabric, x: int, y: int, a: int, b: int)
    requires fabric.NodeOf(a) == fabric.NodeOf(b) && a != b
    ensures WithOneLink(fabric, x, y).PairScore(a, b) == 1 + Bonus([a, b], x, y)
  {
    var edges := WithOneLink(fabric, x, y).topology.edges;
    assert edges[1..] == [] && EdgeScore([], Min(a, b), Max(a, b)) == 1;
    assert edges[0].Score() == 100;
    assert x in [a, b] <==> x == a || x == b;
    assert y in [a, b] <==> y == a || y == b;
  }

  lemma {:induction false} OneLinkLinks(fabric: Fabric, x: int, y: int, a: int, g: Group)
    requires a !in g && Distinct(g) && forall z :: z in g ==> fabric.NodeOf(z) == fabric.NodeOf(a)
    ensures Links(WithOneLink(fabric, x, y), a, g) == |g| + (if (a == x && y in g) || (a == y && x in g) then 99 else 0)
  {
    if g != [] {
      assert g == [g[0]] + g[1..];
      OneLinkLinks(fabric, x, y, a, g[1..]);
      OneLinkPair(fabric, x, y, a, g[0]);
      hide Fabric.PairScore;
    }
  }

  /** Every pair of a group counts one, and the linked pair ninety-nine more. */
  lemma {:induction false} OneLinkGroup(fabric: Fabric, x: int, y: int, g: Group)
    requires Distinct(g) && OneMachine(fabric, g)
    ensures WithOneLink(fabric, x, y).GroupScore(g) == Pairs(|g|) + Bonus(g, x, y)
  {
    GroupScoreExact(WithOneLink(fabric, x, y), g);
    OneLinkSum(fabric, x, y, g);
  }

  lemma {:induction false} OneLinkSum(fabric: Fabric, x: int, y: int, g: Group)
    requires Distinct(g) && OneMachine(fabric, g)
    ensures PairSum(WithOneLink(fabric, x, y), g) == Pairs(|g|) + Bonus(g, x, y)
  {
    if g != [] {
      assert g == [g[0]] + g[1..];
      assert g[0] !in g[1..];
      OneLinkLinks(fabric, x, y, g[0], g[1..]);
      OneLinkSum(fabric, x, y, g[1..]);
      hide Links;
    }
  }

  ghost predicate SomeHolds(p: seq<Group>, x: int, y: int) {
    exists g :: g in p && Bonus(g, x, y) > 0
  }

  /** The score of disjoint groups of one size, each inside a machine: the linked pair is together, or it is not. */
  lemma {:induction false} OneLinkScore(fabric: Fabric, x: int, y: int, tp: nat, p: seq<Group>)
    requires PairwiseDisjoint(p) && InMachines(fabric, p) && forall g :: g in p ==> |g| == tp && Distinct(g)
    ensures WithOneLink(fabric, x, y).PartitionScore(p) == Times(Pairs(tp), |p|) + (if SomeHolds(p, x, y) then 99 else 0)
  {
    hide Fabric.GroupScore;
    if p != [] {
      assert p == [p[0]] + p[1..];
      assert PairwiseDisjoint(p[1..]) by {
        forall i, j | 0 <= i < j < |p[1..]| ensures Disjoint(p[1..][i], p[1..][j]) {
          assert Disjoint(p[i + 1], p[j + 1]);
        }
      }
      OneLinkScore(fabric, x, y, tp, p[1..]);
      OneLinkGroup(fabric, x, y, p[0]);
      if SomeHolds(p[1..], x, y) {
        var g :| g in p[1..] && Bonus(g, x, y) > 0;
        var i :| 0 <= i < |p[1..]| && p[1..][i] == g;
        assert Disjoint(p[0], p[i + 1]);
        assert g in p;
      } else if Bonus(p[0], x, y) > 0 {
        assert p[0] in p;
      }
    }
  }

  lemma LexOneWay(a: seq<int>, b: seq<int>)
    requires LexLess(a, b)
    ensures a != b && !LexLess(b, a)
  {
    var i: nat :| LexAt(a, b, i);
    forall j: nat | j < |a| && j < |b| ensures !LexAt(b, a, j) {
      if j < i {
        assert a[..i][j] == a[j] && b[..i][j] == b[j];
      } else if j > i {
        assert a[..j][i] == a[i] && b[..j][i] == b[i];
      }
    }
  }

  lemma PartLessOneWay(p: seq<Group>, q: seq<Group>)
    requires PartLess(p, q)
    ensures p != q && !PartLess(q, p)
  {
    var i: nat :| PartAt(p, q, i);
    LexOneWay(p[i], q[i]);
    hide LexLess;
    forall j: nat | j < |p| && j < |q| ensures !PartAt(q, p, j) {
      if j < i {
        assert p[..i][j] == p[j] && q[..i][j] == q[j];
        NotBefore(p[j]);
      } else if j > i {
        assert p[..j][i] == p[i] && q[..j][i] == q[i];
      }
    }
  }

  lemma NotBefore(a: seq<int>)
    ensures !LexLess(a, a)
  {
  }

  /** The last group holds both devices. */
  ghost predicate EndsWith(r: Result<seq<Group>, PlanError>, x: int, y: int) {
    r.Ok? && r.value != [] && x in r.value[|r.value| - 1] && y in r.value[|r.value| - 1]
  }

  /** On one machine: some pair of devices, if linked, ends up in the last group of the machine's plan. */
  lemma LastGroupOfMachine(fabric: Fabric, tp: nat, here: seq<int>) returns (x: int, y: int)
    requires tp >= 2 && Increasing(here) && |here| <= EXHAUSTIVE_MAX_GPUS && OneMachine(fabric, here)
    requires Quotient(|here|, tp) >= 1
    ensures x != y && x in here && y in here
    ensures EndsWith(Plan(WithOneLink(fabric, x, y), tp, Quotient(|here|, tp), here, true), x, y)
  {
    hide *;
    var p := LeastPlan(WithOneLink(fabric, 0, 0), tp, here);
    x, y := FirstTwo(WithOneLink(fabric, 0, 0), tp, here, p);
    var q := LeastPlan(WithOneLink(fabric, x, y), tp, here);
    SameLeast(fabric, tp, here, p, q, x, y);
    HoldsLast(q, x, y);
  }

  lemma LeastPlan(fabric: Fabric, tp: nat, here: seq<int>) returns (p: seq<Group>)
    requires tp >= 1 && Increasing(here) && |here| <= EXHAUSTIVE_MAX_GPUS
    ensures Plan(fabric, tp, Quotient(|here|, tp), here, true) == Ok(p)
    ensures |p| == Quotient(|here|, tp) && OptimalPlacement(fabric, tp, |p|, here, p)
  {
    MachinePlan(fabric, tp, here);
    p := Plan(fabric, tp, Quotient(|here|, tp), here, true).value;
    hide Plan, Fabric.PartitionScore;
  }

  lemma HoldsLast(p: seq<Group>, x: int, y: int)
    requires p != [] && x in p[|p| - 1] && y in p[|p| - 1]
    ensures EndsWith(Ok(p), x, y)
  {
  }

  lemma FirstTwo(fabric: Fabric, tp: nat, here: seq<int>, p: seq<Group>) returns (x: int, y: int)
    requires tp >= 2 && OptimalPlacement(fabric, tp, |p|, here, p) && p != []
    ensures x != y && x in here && y in here && x in p[|p| - 1] && y in p[|p| - 1]
  {
    var last := p[|p| - 1];
    assert last in p;
    x, y := last[0], last[1];
  }

  /** Linking two devices that were together in the least placement leaves it the least. */
  lemma SameLeast(fabric: Fabric, tp: nat, here: seq<int>, p: seq<Group>, q: seq<Group>, x: int, y: int)
    requires tp >= 1 && OneMachine(fabric, here) && p != [] && x != y && x in p[|p| - 1] && y in p[|p| - 1]
    requires OptimalPlacement(WithOneLink(fabric, 0, 0), tp, |p|, here, p)
    requires OptimalPlacement(WithOneLink(fabric, x, y), tp, |p|, here, q)
    ensures p == q
  {
    hide Times;
    var flat, linked := WithOneLink(fabric, 0, 0), WithOneLink(fabric, x, y);
    hide Fabric.PartitionScore;
    CanonicalScore(fabric, tp, here, p, 0, 0);
    CanonicalScore(fabric, tp, here, q, 0, 0);
    CanonicalScore(fabric, tp, here, p, x, y);
    CanonicalScore(fabric, tp, here, q, x, y);
    assert p[|p| - 1] in p && Bonus(p[|p| - 1], x, y) > 0;
    CanonicalPlaces(tp, here, p);
    assert linked.PartitionScore(q) == linked.PartitionScore(p);
    assert flat.PartitionScore(q) == flat.PartitionScore(p);
    hide Canonical, Places, PartLess;
    assert p == q || (PartLess(p, q) && PartLess(q, p));
    OneOrder(p, q);
  }

  lemma OneOrder(p: seq<Group>, q: seq<Group>)
    ensures !(PartLess(p, q) && PartLess(q, p))
  {
    if PartLess(p, q) {
      PartLessOneWay(p, q);
    }
  }

  lemma CanonicalScore(fabric: Fabric, tp: nat, here: seq<int>, p: seq<Group>, x: int, y: int)
    requires tp >= 1 && Canonical(tp, here, p) && OneMachine(fabric, here)
    ensures WithOneLink(fabric, x, y).PartitionScore(p) == Times(Pairs(tp), |p|) + (if SomeHolds(p, x, y) then 99 else 0)
  {
    forall g | g in p ensures Distinct(g) && OneMachine(fabric, g) {
      assert Increasing(g) && Subset(g, here);
    }
    OneLinkScore(fabric, x, y, tp, p);
  }

  // ------------------------------------------------------------------ asking for fewer

  function Rewired(fabric: Fabric, topology: Topology): Fabric {
    fabric.(topology := topology)
  }

  lemma {:induction false} SameMachines(fabric: Fabric, topology: Topology, ids: seq<int>)
    ensures Machines(Rewired(fabric, topology), ids) == Machines(fabric, ids)
  {
    if ids != [] {
      SameMachines(fabric, topology, ids[..|ids| - 1]);
      assert Rewired(fabric, topology).NodeOf(ids[|ids| - 1]) == fabric.NodeOf(ids[|ids| - 1]);
    }
  }

  lemma {:induction false} SameDevices(fabric: Fabric, topology: Topology, ids: seq<int>, machine: Option<string>)
    ensures OnMachine(Rewired(fabric, topology), ids, machine) == OnMachine(fabric, ids, machine)
  {
    if ids != [] {
      SameDevices(fabric, topology, ids[1..], machine);
      assert Rewired(fabric, topology).NodeOf(ids[0]) == fabric.NodeOf(ids[0]);
    }
  }

  lemma {:induction false} SameTotal(fabric: Fabric, topology: Topology, tp: nat, ids: seq<int>, machines: seq<Option<string>>)
    requires tp >= 1
    ensures FitTotal(Rewired(fabric, topology), tp, ids, machines) == FitTotal(fabric, tp, ids, machines)
  {
    if machines != [] {
      SameTotal(fabric, topology, tp, ids, machines[1..]);
      SameDevices(fabric, topology, ids, machines[0]);
    }
  }

  lemma SameCapacity(fabric: Fabric, topology: Topology, tp: nat, gpuIds: seq<int>)
    requires tp >= 1
    ensures Capacity(Rewired(fabric, topology), tp, gpuIds) == Capacity(fabric, tp, gpuIds)
    ensures SeveralMachines(fabric, tp, gpuIds) ==> SeveralMachines(Rewired(fabric, topology), tp, gpuIds)
  {
    var ids := Sort(gpuIds, INT_LE);
    SameMachines(fabric, topology, ids);
    SameTotal(fabric, topology, tp, ids, Sort(Machines(fabric, ids), NODE_LE));
    forall m ensures OnMachine(Rewired(fabric, topology), ids, m) == OnMachine(fabric, ids, m) {
      SameDevices(fabric, topology, ids, m);
    }
    hide Sort, Machines, OnMachine, FitTotal;
  }

  lemma LinkRewires(fabric: Fabric, x: int, y: int)
    ensures WithOneLink(fabric, x, y) == Rewired(fabric, WithOneLink(fabric, x, y).topology)
  {
  }

  /** Some pair of devices, if linked, ends up in the last of all the groups that fit. */
  lemma {:induction false} LastGroup(fabric: Fabric, tp: nat, ids: seq<int>, machines: seq<Option<string>>) returns (x: int, y: int)
    requires tp >= 2 && Increasing(ids) && Distinct(machines) && SmallMachines(fabric, ids, machines)
    requires FitTotal(fabric, tp, ids, machines) >= 1
    ensures x != y && EndsWith(NodeGroups(WithOneLink(fabric, x, y), tp, ids, machines), x, y)
    decreases |machines|
  {
    var rest := FitTotal(fabric, tp, ids, machines[1..]);
    assert FitTotal(fabric, tp, ids, machines) == Quotient(|OnMachine(fabric, ids, machines[0])|, tp) + rest;
    if rest >= 1 {
      x, y := LastGroup(fabric, tp, ids, machines[1..]);
      NodeGroupsSound(WithOneLink(fabric, x, y), tp, ids, machines);
      hide *;
      hide EndsWith;
      LaterMachinesLast(WithOneLink(fabric, x, y), tp, ids, machines, x, y);
    } else {
      x, y := LastOfFirstMachine(fabric, tp, ids, machines);
    }
  }

  lemma LastOfFirstMachine(fabric: Fabric, tp: nat, ids: seq<int>, machines: seq<Option<string>>) returns (x: int, y: int)
    requires tp >= 2 && Increasing(ids) && Distinct(machines) && SmallMachines(fabric, ids, machines) && machines != []
    requires Quotient(|OnMachine(fabric, ids, machines[0])|, tp) >= 1 && FitTotal(fabric, tp, ids, machines[1..]) == 0
    ensures x != y && EndsWith(NodeGroups(WithOneLink(fabric, x, y), tp, ids, machines), x, y)
  {
    var here := OnMachine(fabric, ids, machines[0]);
    OnMachineIncreasing(fabric, ids, machines[0]);
    x, y := LastGroupOfMachine(fabric, tp, here);
    var linked := WithOneLink(fabric, x, y);
    LinkRewires(fabric, x, y);
    SameDevices(fabric, linked.topology, ids, machines[0]);
    SameTotal(fabric, linked.topology, tp, ids, machines[1..]);
    hide *;
    hide Increasing, Distinct;
    DistinctTail(machines);
    NothingFits(linked, tp, ids, machines[1..]);
    NothingMore(linked, tp, ids, machines);
    assert EndsWith(Plan(linked, tp, Quotient(|here|, tp), here, true), x, y);
  }

  lemma DistinctTail(machines: seq<Option<string>>)
    requires Distinct(machines) && machines != []
    ensures Distinct(machines[1..])
  {
  }

  lemma NothingFits(fabric: Fabric, tp: nat, ids: seq<int>, machines: seq<Option<string>>)
    requires tp >= 1 && Increasing(ids) && Distinct(machines) && FitTotal(fabric, tp, ids, machines) == 0
    ensures NodeGroups(fabric, tp, ids, machines) == Ok([])
  {
    NodeGroupsSound(fabric, tp, ids, machines);
    hide NodeGroups, FitTotal;
  }

  /** The first machine is the last on which a group fits. */
  lemma NothingMore(fabric: Fabric, tp: nat, ids: seq<int>, machines: seq<Option<string>>)
    requires tp >= 1 && machines != [] && NodeGroups(fabric, tp, ids, machines[1..]) == Ok([])
    requires
      var here := OnMachine(fabric, ids, machines[0]);
      Quotient(|here|, tp) >= 1 && Plan(fabric, tp, Quotient(|here|, tp), here, true).Ok?
    ensures
      var here := OnMachine(fabric, ids, machines[0]);
      NodeGroups(fabric, tp, ids, machines) == Plan(fabric, tp, Quotient(|here|, tp), here, true)
  {
    var here := OnMachine(fabric, ids, machines[0]);
    var first := Plan(fabric, tp, Quotient(|here|, tp), here, true).value;
    assert first + [] == first;
    hide Plan, OnMachine;
  }

  lemma LaterMachinesLast(fabric: Fabric, tp: nat, ids: seq<int>, machines: seq<Option<string>>, x: int, y: int)
    requires tp >= 1 && machines != [] && NodeGroups(fabric, tp, ids, machines).Ok?
    requires EndsWith(NodeGroups(fabric, tp, ids, machines[1..]), x, y)
    ensures EndsWith(NodeGroups(fabric, tp, ids, machines), x, y)
  {
    hide Plan, OnMachine;
  }

  /**
   * Asking several machines for some but not all of the groups that fit can miss the best: with a
   * certain pair of devices linked, the linked pair is in the last group, which is not returned.
   */
  lemma FewerMissTheBest(fabric: Fabric, tp: nat, k: nat, gpuIds: seq<int>) returns (x: int, y: int)
    requires SeveralMachines(fabric, tp, gpuIds) && 0 < k < Capacity(fabric, tp, gpuIds)
    ensures !BestInside(WithOneLink(fabric, x, y), tp, k, gpuIds)
  {
    var ids := Sort(gpuIds, INT_LE);
    var machines := Sort(Machines(fabric, ids), NODE_LE);
    SortIncreasing(gpuIds);
    SortedMachines(fabric, ids);
    SortPermutes(Machines(fabric, ids), NODE_LE);
    assert SmallMachines(fabric, ids, machines);
    x, y := LastGroup(fabric, tp, ids, machines);
    LastMissed(fabric, tp, k, gpuIds, x, y);
  }

  lemma LastMissed(fabric: Fabric, tp: nat, k: nat, gpuIds: seq<int>, x: int, y: int)
    requires SeveralMachines(fabric, tp, gpuIds) && 0 < k < Capacity(fabric, tp, gpuIds) && x != y
    requires
      var ids := Sort(gpuIds, INT_LE);
      EndsWith(NodeGroups(WithOneLink(fabric, x, y), tp, ids, Sort(Machines(fabric, ids), NODE_LE)), x, y)
    ensures !BestInside(WithOneLink(fabric, x, y), tp, k, gpuIds)
  {
    var ids := Sort(gpuIds, INT_LE);
    var linked := WithOneLink(fabric, x, y);
    assert tp >= 2 && Distinct(gpuIds);
    hide *;
    LinkRewires(fabric, x, y);
    SameMachines(fabric, linked.topology, ids);
    SameCapacity(fabric, linked.topology, tp, gpuIds);
    var all := FirstGroups(linked, tp, k, gpuIds);
    LastHeld(Ok(all), all, x, y);
    LastIsBetter(fabric, tp, k, ids, all, x, y);
    var better := all[..k - 1] + [all[|all| - 1]];
    SameIds(linked, tp, k, gpuIds, better);
    Beaten(linked, tp, k, gpuIds, all[..k], better);
  }

  lemma LastHeld(r: Result<seq<Group>, PlanError>, all: seq<Group>, x: int, y: int)
    requires r == Ok(all) && EndsWith(r, x, y)
    ensures all != [] && x in all[|all| - 1] && y in all[|all| - 1]
  {
  }

  lemma Beaten(fabric: Fabric, tp: nat, k: nat, gpuIds: seq<int>, planned: seq<Group>, better: seq<Group>)
    requires tp >= 1 && Plan(fabric, tp, k, gpuIds, false) == Ok(planned)
    requires Inside(fabric, tp, k, gpuIds, better) && fabric.PartitionScore(better) > fabric.PartitionScore(planned)
    ensures !BestInside(fabric, tp, k, gpuIds)
  {
    hide Plan, Inside, Fabric.PartitionScore;
  }

  lemma SameIds(fabric: Fabric, tp: nat, k: nat, gpuIds: seq<int>, p: seq<Group>)
    requires Distinct(gpuIds) && Inside(fabric, tp, k, Sort(gpuIds, INT_LE), p)
    ensures Inside(fabric, tp, k, gpuIds, p)
  {
    SortIncreasing(gpuIds);
    InsideSameIds(fabric, tp, k, Sort(gpuIds, INT_LE), gpuIds, p);
  }

  /** Over several machines, the plan is the first of all the groups that fit. */
  lemma FirstGroups(fabric: Fabric, tp: nat, k: nat, gpuIds: seq<int>) returns (all: seq<Group>)
    requires SeveralMachines(fabric, tp, gpuIds) && k <= Capacity(fabric, tp, gpuIds)
    ensures
      var ids := Sort(gpuIds, INT_LE);
      && NodeGroups(fabric, tp, ids, Sort(Machines(fabric, ids), NODE_LE)) == Ok(all)
      && |all| == Capacity(fabric, tp, gpuIds) && Inside(fabric, tp, |all|, ids, all)
      && Plan(fabric, tp, k, gpuIds, false) == Ok(all[..k])
  {
    var ids := Sort(gpuIds, INT_LE);
    var machines := Sort(Machines(fabric, ids), NODE_LE);
    SortIncreasing(gpuIds);
    SortedMachines(fabric, ids);
    NodeGroupsSound(fabric, tp, ids, machines);
    CapacityFits(fabric, tp, k, gpuIds);
    PlanGoesPerNode(fabric, tp, k, gpuIds);
    all := NodeGroups(fabric, tp, ids, machines).value;
    hide Plan, NodeGroups, Sort, Machines, FitTotal;
  }

  lemma LastIsBetter(fabric: Fabric, tp: nat, k: nat, ids: seq<int>, all: seq<Group>, x: int, y: int)
    requires x != y && 0 < k < |all| && Inside(WithOneLink(fabric, x, y), tp, |all|, ids, all)
    requires x in all[|all| - 1] && y in all[|all| - 1]
    ensures
      var better := all[..k - 1] + [all[|all| - 1]];
      && Inside(WithOneLink(fabric, x, y), tp, k, ids, better)
      && WithOneLink(fabric, x, y).PartitionScore(better) > WithOneLink(fabric, x, y).PartitionScore(all[..k])
  {
    var n := |all| - 1;
    var better := all[..k - 1] + [all[n]];
    LastSwapped(fabric, tp, k, ids, all, x, y);
    assert forall g :: g in better ==> g in all;
    assert forall g :: g in all[..k] ==> g in all;
    assert better[k - 1] == all[n] && Bonus(all[n], x, y) > 0;
    assert forall g :: g in all ==> |g| == tp && Distinct(g) && OneMachine(fabric, g) by {
      forall g | g in all ensures OneMachine(fabric, g) {
        SameInside(fabric, g, x, y);
      }
    }
    forall i | 0 <= i < k ensures Bonus(all[i], x, y) == 0 {
      assert Disjoint(all[i], all[n]);
    }
    OneLinkScore(fabric, x, y, tp, all[..k]);
    OneLinkScore(fabric, x, y, tp, better);
    assert better[k - 1] in better;
  }

  lemma LastSwapped(fabric: Fabric, tp: nat, k: nat, ids: seq<int>, all: seq<Group>, x: int, y: int)
    requires 0 < k < |all| && Inside(WithOneLink(fabric, x, y), tp, |all|, ids, all)
    ensures Inside(WithOneLink(fabric, x, y), tp, k, ids, all[..k - 1] + [all[|all| - 1]])
  {
    var n := |all| - 1;
    var better := all[..k - 1] + [all[n]];
    forall i, j | 0 <= i < j < |better| ensures Disjoint(better[i], better[j]) {
      assert Disjoint(all[i], all[if j < k - 1 then j else n]);
    }
    assert forall g :: g in better ==> g in all;
    hide Disjoint, Distinct, Subset, OneMachine;
  }

  lemma SameInside(fabric: Fabric, g: Group, x: int, y: int)
    requires OneMachine(WithOneLink(fabric, x, y), g)
    ensures OneMachine(fabric, g)
  {
    forall a, b | a in g && b in g ensures fabric.NodeOf(a) == fabric.NodeOf(b) {
      assert WithOneLink(fabric, x, y).NodeOf(a) == WithOneLink(fabric, x, y).NodeOf(b);
    }
  }

  /**
   * Over several small machines, the plan is the best connected one whatever the wiring if and only
   * if all the groups that fit are asked for, or none.
   */
  lemma PerMachineExact(fabric: Fabric, tp: nat, k: nat, gpuIds: seq<int>)
    requires SeveralMachines(fabric, tp, gpuIds) && k <= Capacity(fabric, tp, gpuIds)
    ensures (forall topology :: BestInside(Rewired(fabric, topology), tp, k, gpuIds)) <==>
              k == 0 || k == Capacity(fabric, tp, gpuIds)
  {
    assert tp >= 2;
    hide SeveralMachines, BestInside, Capacity;
    if 0 < k < Capacity(fabric, tp, gpuIds) {
      var x, y := FewerMissTheBest(fabric, tp, k, gpuIds);
      LinkRewires(fabric, x, y);
    } else {
      forall topology ensures BestInside(Rewired(fabric, topology), tp, k, gpuIds) {
        SameCapacity(fabric, topology, tp, gpuIds);
        if k == 0 {
          NoGroupsBest(Rewired(fabric, topology), tp, gpuIds);
        } else {
          AllGroupsBest(Rewired(fabric, topology), tp, gpuIds);
        }
      }
    }
  }

  lemma NoGroupsBest(fabric: Fabric, tp: nat, gpuIds: seq<int>)
    requires SeveralMachines(fabric, tp, gpuIds)
    ensures BestInside(fabric, tp, 0, gpuIds)
  {
    PlanAcrossMachines(fabric, tp, 0, gpuIds);
    hide Plan;
  }
}

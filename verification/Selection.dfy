/** Choosing the devices to plan on, and how many replicas their machines can hold. */
module Selection {
  import opened Arithmetic
  import opened Common
  import opened Sorting
  import opened Hardware
  import opened Combinations
  import opened Partitions
  import opened GpuGroups
  import opened Placement

  datatype SelectionError = NoGpus | UnknownIndices | MixedGpus

  function Indices(gpus: seq<Gpu>): (r: seq<int>)
    ensures |r| == |gpus|
  {
    seq(|gpus|, i requires 0 <= i < |gpus| => gpus[i].index)
  }

  /** First occurrences. */
  function Unique(s: seq<int>): seq<int> {
    if s == [] then []
    else
      var earlier := Unique(s[..|s| - 1]);
      if s[|s| - 1] in earlier then earlier else earlier + [s[|s| - 1]]
  }

  function Restrict(gpus: seq<Gpu>, ids: seq<int>): seq<Gpu> {
    if gpus == [] then []
    else (if gpus[0].index in ids then [gpus[0]] else []) + Restrict(gpus[1..], ids)
  }

  function RestrictEdges(edges: seq<Edge>, ids: seq<int>): seq<Edge> {
    if edges == [] then []
    else (if edges[0].a in ids && edges[0].b in ids then [edges[0]] else []) + RestrictEdges(edges[1..], ids)
  }

  function RestrictInts(s: seq<int>, ids: seq<int>): seq<int> {
    if s == [] then [] else (if s[0] in ids then [s[0]] else []) + RestrictInts(s[1..], ids)
  }

  /** Machines that keep at least one selected device. */
  function RestrictNodes(nodes: seq<NodeInfo>, ids: seq<int>): seq<NodeInfo> {
    if nodes == [] then []
    else
      var kept := RestrictInts(nodes[0].gpuIndices, ids);
      (if kept != [] then [nodes[0].(gpuIndices := kept)] else []) + RestrictNodes(nodes[1..], ids)
  }

  /** `snapshot.select`: the snapshot as if it had only these devices. */
  function Narrow(snapshot: Snapshot, ids: seq<int>): Snapshot {
    snapshot.(gpus := Restrict(snapshot.gpus, ids),
              topology := snapshot.topology.(edges := RestrictEdges(snapshot.topology.edges, ids)),
              nodes := RestrictNodes(snapshot.nodes, ids))
  }

  predicate Homogeneous(gpus: seq<Gpu>) {
    forall i, j :: 0 <= i < j < |gpus| ==> gpus[i].name == gpus[j].name && gpus[i].total == gpus[j].total
  }

  datatype Selected = Selected(snapshot: Snapshot, ids: seq<int>)

  function SelectGpus(snapshot: Snapshot, wanted: Option<seq<int>>): Result<Selected, SelectionError> {
    var all := Indices(snapshot.gpus);
    if snapshot.gpus == [] then Err(NoGpus)
    else if wanted.Some? && exists i | i in wanted.value :: i !in all then Err(UnknownIndices)
    else
      var ids := Sort(Unique(if wanted.Some? then wanted.value else all), INT_LE);
      var narrowed := Narrow(snapshot, ids);
      if !Homogeneous(narrowed.gpus) then Err(MixedGpus) else Ok(Selected(narrowed, ids))
  }

  /** What a selection guarantees: increasing ids of existing devices, and exactly their entries. */
  ghost predicate Sound(snapshot: Snapshot, s: Selected) {
    && Increasing(s.ids)
    && (forall i :: i in s.ids <==> i in Indices(s.snapshot.gpus))
    && UniqueIndices(s.snapshot.gpus)
    && (forall g :: g in s.snapshot.gpus ==> g in snapshot.gpus)
    && Homogeneous(s.snapshot.gpus)
  }

  lemma {:induction false} UniqueFacts(s: seq<int>)
    ensures Distinct(Unique(s)) && forall x :: x in Unique(s) <==> x in s
  {
    if s != [] {
      var n := |s| - 1;
      UniqueFacts(s[..n]);
      assert s == s[..n] + [s[n]];
    }
  }

  lemma {:induction false} RestrictFacts(gpus: seq<Gpu>, ids: seq<int>)
    requires UniqueIndices(gpus)
    ensures UniqueIndices(Restrict(gpus, ids))
    ensures forall g :: g in Restrict(gpus, ids) <==> g in gpus && g.index in ids
  {
    if gpus != [] {
      RestrictFacts(gpus[1..], ids);
      assert gpus == [gpus[0]] + gpus[1..];
      var rest := Restrict(gpus[1..], ids);
      forall k | 0 <= k < |rest| ensures rest[k].index != gpus[0].index {
        assert rest[k] in gpus[1..];
      }
    }
  }

  lemma IndexMembers(gpus: seq<Gpu>, i: int)
    ensures i in Indices(gpus) <==> exists g :: g in gpus && g.index == i
  {
    if i in Indices(gpus) {
      var k :| 0 <= k < |gpus| && Indices(gpus)[k] == i;
      assert gpus[k] in gpus && gpus[k].index == i;
    }
    if g :| g in gpus && g.index == i {
      var k :| 0 <= k < |gpus| && gpus[k] == g;
      assert Indices(gpus)[k] == i;
    }
  }

  lemma SelectionSound(snapshot: Snapshot, wanted: Option<seq<int>>)
    requires UniqueIndices(snapshot.gpus) && SelectGpus(snapshot, wanted).Ok?
    ensures Sound(snapshot, SelectGpus(snapshot, wanted).value)
  {
    var all := Indices(snapshot.gpus);
    var source := if wanted.Some? then wanted.value else all;
    var s := SelectGpus(snapshot, wanted).value;
    UniqueFacts(source);
    SortIncreasing(Unique(source));
    RestrictFacts(snapshot.gpus, s.ids);
    forall i ensures i in s.ids <==> i in Indices(s.snapshot.gpus) {
      IndexMembers(snapshot.gpus, i);
      IndexMembers(s.snapshot.gpus, i);
    }
  }

  /** The devices chosen: those asked for, or all. */
  predicate Asked(snapshot: Snapshot, wanted: Option<seq<int>>, i: int) {
    if wanted.Some? then i in wanted.value else exists g :: g in snapshot.gpus && g.index == i
  }

  predicate Alike(g: Gpu, h: Gpu) {
    g.name == h.name && g.total == h.total
  }

  lemma {:induction false} RestrictEdgesFacts(edges: seq<Edge>, ids: seq<int>)
    ensures forall e :: e in RestrictEdges(edges, ids) <==> e in edges && e.a in ids && e.b in ids
  {
    if edges != [] {
      RestrictEdgesFacts(edges[1..], ids);
      assert edges == [edges[0]] + edges[1..];
    }
  }

  /**
   * Selection fails exactly when there are no devices, when one that is asked for does not exist, or
   * when two of those chosen differ in name or size; otherwise the selection has exactly the devices
   * asked for, or all, and exactly the wiring between them.
   */
  lemma SelectionExact(snapshot: Snapshot, wanted: Option<seq<int>>)
    requires UniqueIndices(snapshot.gpus)
    ensures
      var r := SelectGpus(snapshot, wanted);
      var missing := wanted.Some? && exists i :: i in wanted.value && forall g :: g in snapshot.gpus ==> g.index != i;
      && (r == Err(NoGpus) <==> snapshot.gpus == [])
      && (r == Err(UnknownIndices) <==> snapshot.gpus != [] && missing)
      && (r == Err(MixedGpus) <==>
            && snapshot.gpus != [] && !missing
            && exists g, h :: g in snapshot.gpus && h in snapshot.gpus && Asked(snapshot, wanted, g.index)
                              && Asked(snapshot, wanted, h.index) && !Alike(g, h))
      && (r.Ok? ==>
            && (forall i :: i in r.value.ids <==> Asked(snapshot, wanted, i))
            && (forall g :: g in r.value.snapshot.gpus <==> g in snapshot.gpus && Asked(snapshot, wanted, g.index))
            && (forall e :: e in r.value.snapshot.topology.edges <==>
                  e in snapshot.topology.edges && Asked(snapshot, wanted, e.a) && Asked(snapshot, wanted, e.b))
            && r.value.snapshot.topology.available == snapshot.topology.available)
  {
    var all := Indices(snapshot.gpus);
    var source := if wanted.Some? then wanted.value else all;
    var ids := Sort(Unique(source), INT_LE);
    UniqueFacts(source);
    SortIncreasing(Unique(source));
    RestrictFacts(snapshot.gpus, ids);
    RestrictEdgesFacts(snapshot.topology.edges, ids);
    forall i ensures i in all <==> exists g :: g in snapshot.gpus && g.index == i {
      IndexMembers(snapshot.gpus, i);
    }
    assert forall i :: i in ids <==> Asked(snapshot, wanted, i);
    HomogeneousMeans(Restrict(snapshot.gpus, ids));
    hide Restrict, RestrictEdges, RestrictNodes, Unique, Sort, Homogeneous, Indices, Asked, Alike;
  }

  lemma HomogeneousMeans(gpus: seq<Gpu>)
    ensures Homogeneous(gpus) <==> forall g, h :: g in gpus && h in gpus ==> Alike(g, h)
  {
    if Homogeneous(gpus) {
      forall g, h | g in gpus && h in gpus ensures Alike(g, h) {
        var i :| 0 <= i < |gpus| && gpus[i] == g;
        var j :| 0 <= j < |gpus| && gpus[j] == h;
        assert i < j || i == j || j < i;
      }
    } else {
      var i, j :| 0 <= i < j < |gpus| && !(gpus[i].name == gpus[j].name && gpus[i].total == gpus[j].total);
      assert gpus[i] in gpus && gpus[j] in gpus && !Alike(gpus[i], gpus[j]);
    }
  }

  // ------------------------------------------------------------------ how many replicas fit

  /** The machines of the selected devices, in order of appearance. */
  function MachineKeys(s: Selected): seq<Option<string>> {
    Machines(FabricOf(s.snapshot), Indices(s.snapshot.gpus))
  }

  function FabricOf(snapshot: Snapshot): Fabric {
    Fabric(snapshot.NodeMap(), snapshot.topology)
  }

  function MachineSize(s: Selected, machine: Option<string>): nat {
    |OnMachine(FabricOf(s.snapshot), Indices(s.snapshot.gpus), machine)|
  }

  /** The smallest machine's number of devices. */
  function LeastSize(s: Selected, machines: seq<Option<string>>): (n: nat)
    requires machines != []
    ensures forall m :: m in machines ==> n <= MachineSize(s, m)
    ensures exists m :: m in machines && n == MachineSize(s, m)
  {
    if |machines| == 1 then MachineSize(s, machines[0])
    else
      var rest := LeastSize(s, machines[1..]);
      assert machines == [machines[0]] + machines[1..];
      if MachineSize(s, machines[0]) <= rest then MachineSize(s, machines[0]) else rest
  }

  /** `sum(n // tp for n in node_sizes)`. */
  function MaxReplicas(s: Selected, tp: nat, machines: seq<Option<string>>): nat
    requires tp >= 1
  {
    if machines == [] then 0 else Quotient(MachineSize(s, machines[0]), tp) + MaxReplicas(s, tp, machines[1..])
  }

  lemma {:induction false} DistinctCount(s: seq<int>, x: int)
    requires Distinct(s)
    ensures multiset(s)[x] == if x in s then 1 else 0
  {
    if s != [] {
      assert s == [s[0]] + s[1..];
      assert multiset(s) == multiset{s[0]} + multiset(s[1..]);
      assert Distinct(s[1..]);
      DistinctCount(s[1..], x);
    }
  }

  lemma SameIds(a: seq<int>, b: seq<int>)
    requires Distinct(a) && Distinct(b) && forall x :: x in a <==> x in b
    ensures multiset(a) == multiset(b)
  {
    forall x ensures multiset(a)[x] == multiset(b)[x] {
      DistinctCount(a, x);
      DistinctCount(b, x);
    }
  }

  lemma {:induction false} OnMachineCounts(fabric: Fabric, ids: seq<int>, machine: Option<string>, x: int)
    ensures multiset(OnMachine(fabric, ids, machine))[x] == if fabric.NodeOf(x) == machine then multiset(ids)[x] else 0
  {
    if ids != [] {
      assert ids == [ids[0]] + ids[1..];
      OnMachineCounts(fabric, ids[1..], machine, x);
    }
  }

  lemma OnMachineSameSize(fabric: Fabric, a: seq<int>, b: seq<int>, machine: Option<string>)
    requires multiset(a) == multiset(b)
    ensures |OnMachine(fabric, a, machine)| == |OnMachine(fabric, b, machine)|
  {
    var p, q := OnMachine(fabric, a, machine), OnMachine(fabric, b, machine);
    forall x: int ensures multiset(p)[x] == multiset(q)[x] {
      OnMachineCounts(fabric, a, machine, x);
      OnMachineCounts(fabric, b, machine, x);
    }
    assert multiset(p) == multiset(q);
    assert |multiset(p)| == |p| && |multiset(q)| == |q|;
  }

  lemma {:induction false} MaxReplicasIsFit(s: Selected, tp: nat, machines: seq<Option<string>>)
    requires tp >= 1 && multiset(s.ids) == multiset(Indices(s.snapshot.gpus))
    ensures MaxReplicas(s, tp, machines) == FitTotal(FabricOf(s.snapshot), tp, s.ids, machines)
  {
    if machines != [] {
      OnMachineSameSize(FabricOf(s.snapshot), s.ids, Indices(s.snapshot.gpus), machines[0]);
      MaxReplicasIsFit(s, tp, machines[1..]);
    }
  }

  /** The number of full groups does not depend on the order machines are visited in. */
  lemma FitAnyOrder(fabric: Fabric, tp: nat, ids: seq<int>, a: seq<Option<string>>, b: seq<Option<string>>)
    requires tp >= 1 && Increasing(ids) && Distinct(a)
    requires forall x :: x in ids ==> fabric.NodeOf(x) in b
    ensures FitTotal(fabric, tp, ids, a) <= FitTotal(fabric, tp, ids, b)
  {
    NodeGroupsSound(fabric, tp, ids, a);
    var p := NodeGroups(fabric, tp, ids, a).value;
    var n := FitTotal(fabric, tp, ids, a);
    SettledElsewhere(fabric, tp, n, ids, a, b, p);
    hide *;
    InMachinesBound(fabric, tp, n, ids, b, p);
  }

  lemma SettledElsewhere(
      fabric: Fabric, tp: nat, n: nat, ids: seq<int>, a: seq<Option<string>>, b: seq<Option<string>>, p: seq<Group>)
    requires Settled(fabric, tp, n, ids, a, p) && forall x :: x in ids ==> fabric.NodeOf(x) in b
    ensures Places(tp, n, ids, p) && OnMachines(fabric, p, b)
  {
  }

  lemma IncreasingDistinct(s: seq<int>)
    requires Increasing(s)
    ensures Distinct(s) && Sort(s, INT_LE) == s
  {
    assert SortedBy(INT_LE, s);
    SortFixed(s, INT_LE);
  }

  lemma IndicesDistinct(gpus: seq<Gpu>)
    requires UniqueIndices(gpus)
    ensures Distinct(Indices(gpus))
  {
  }

  /** The planner's own count of replicas is exactly the capacity the placement theorem speaks of. */
  lemma MaxReplicasIsCapacity(snapshot: Snapshot, s: Selected, tp: nat)
    requires tp >= 1 && Sound(snapshot, s)
    ensures MaxReplicas(s, tp, MachineKeys(s)) == Capacity(FabricOf(s.snapshot), tp, s.ids)
  {
    var fabric, indices := FabricOf(s.snapshot), Indices(s.snapshot.gpus);
    var machines := Sort(Machines(fabric, s.ids), NODE_LE);
    IndicesDistinct(s.snapshot.gpus);
    IncreasingDistinct(s.ids);
    SameIds(s.ids, indices);
    MaxReplicasIsFit(s, tp, MachineKeys(s));
    MachinesFacts(fabric, indices);
    SortedMachines(fabric, s.ids);
    FitAnyOrder(fabric, tp, s.ids, MachineKeys(s), machines);
    FitAnyOrder(fabric, tp, s.ids, machines, MachineKeys(s));
    hide Sort, FitTotal, MaxReplicas, Machines;
  }

  lemma {:induction false} SomeReplicaFits(s: Selected, tp: nat, machines: seq<Option<string>>)
    requires tp >= 1 && machines != [] && tp <= MachineSize(s, machines[0])
    ensures MaxReplicas(s, tp, machines) >= 1
  {
  }

  /** Every selected device has a machine entry, so the planner knows it. */
  lemma SelectedKnown(snapshot: Snapshot, s: Selected)
    requires Sound(snapshot, s)
    ensures forall i :: i in s.ids ==> i in FabricOf(s.snapshot).nodeOf
  {
    forall i | i in s.ids ensures i in FabricOf(s.snapshot).nodeOf {
      var k :| 0 <= k < |s.snapshot.gpus| && Indices(s.snapshot.gpus)[k] == i;
      NodeMapAt(s.snapshot.gpus, k);
    }
  }

  /** So planning inside machines succeeds for every number of replicas up to that count, and only then. */
  lemma PlanNeverRaises(snapshot: Snapshot, s: Selected, tp: nat, k: nat)
    requires tp >= 1 && Sound(snapshot, s)
    ensures Plan(FabricOf(s.snapshot), tp, k, s.ids, false).Ok? <==> k <= MaxReplicas(s, tp, MachineKeys(s))
    ensures k <= MaxReplicas(s, tp, MachineKeys(s)) ==>
              Inside(FabricOf(s.snapshot), tp, k, s.ids, Plan(FabricOf(s.snapshot), tp, k, s.ids, false).value)
  {
    MaxReplicasIsCapacity(snapshot, s, tp);
    IncreasingDistinct(s.ids);
    SelectedKnown(snapshot, s);
    hide Capacity, MaxReplicas, Plan, Inside, Increasing;
    PlanInsideMachines(FabricOf(s.snapshot), tp, k, s.ids);
  }
}

/** The producer satisfies the validator: every candidate the planner offers passes the proposal checks. */
module Producer {
  import opened Arithmetic
  import opened Common
  import opened Sorting
  import opened Schemas
  import opened Hardware
  import opened Combinations
  import opened Partitions
  import opened GpuGroups
  import opened Placement
  import opened Memory
  import opened Selection
  import opened Validation
  import opened Candidates

  // ------------------------------------------------------------------ flattened groups

  lemma {:induction false} FlattenMembers(groups: seq<seq<int>>, x: int)
    ensures x in Flatten(groups) <==> exists g :: g in groups && x in g
  {
    if groups != [] {
      FlattenMembers(groups[1..], x);
      assert groups == [groups[0]] + groups[1..];
    }
  }

  lemma ConcatDistinct(a: seq<int>, b: seq<int>)
    requires Distinct(a) && Distinct(b) && forall x :: x in a ==> x !in b
    ensures Distinct(a + b)
  {
    var s := a + b;
    forall i, j | 0 <= i < j < |s| ensures s[i] != s[j] {
      if i < |a| <= j {
        assert a[i] in a && b[j - |a|] in b;
      }
    }
  }

  /** Disjoint groups without repetition flatten without repetition. */
  lemma {:induction false} FlattenDistinct(groups: seq<Group>)
    requires PairwiseDisjoint(groups) && forall g :: g in groups ==> Distinct(g)
    ensures Distinct(Flatten(groups))
  {
    if groups != [] {
      var rest := groups[1..];
      assert PairwiseDisjoint(rest) by {
        assert forall i, j :: 0 <= i < j < |rest| ==> rest[i] == groups[i + 1] && rest[j] == groups[j + 1];
      }
      FlattenDistinct(rest);
      forall x | x in groups[0] ensures x !in Flatten(rest) {
        FlattenMembers(rest, x);
        assert forall k :: 0 <= k < |rest| ==> Disjoint(groups[0], groups[k + 1]) && rest[k] == groups[k + 1];
      }
      ConcatDistinct(groups[0], Flatten(rest));
    }
  }

  // ------------------------------------------------------------------ machine labels

  lemma {:induction false} LabelOfMember(gpus: seq<Gpu>, g: Gpu)
    requires UniqueIndices(gpus) && g in gpus
    ensures NodeLabel(gpus, g.index) == LabelOf(g.nodeId)
  {
    if gpus[0] != g {
      assert g in gpus[1..];
      var k :| 0 <= k < |gpus[1..]| && gpus[1..][k] == g;
      assert gpus[k + 1].index != gpus[0].index;
      LabelOfMember(gpus[1..], g);
    }
  }

  /** A selected device is labelled the same in the selection and in the whole inventory, by its machine. */
  lemma SameLabel(snapshot: Snapshot, s: Selected, i: int)
    requires UniqueIndices(snapshot.gpus) && Sound(snapshot, s) && i in s.ids
    ensures NodeLabel(s.snapshot.gpus, i) == NodeLabel(snapshot.gpus, i) == LabelOf(FabricOf(s.snapshot).NodeOf(i))
    ensures exists g :: g in snapshot.gpus && g.index == i
  {
    var k :| 0 <= k < |s.snapshot.gpus| && Indices(s.snapshot.gpus)[k] == i;
    var g := s.snapshot.gpus[k];
    NodeMapAt(s.snapshot.gpus, k);
    LabelOfMember(s.snapshot.gpus, g);
    LabelOfMember(snapshot.gpus, g);
  }

  lemma SameLabels(snapshot: Snapshot, s: Selected, groups: seq<seq<int>>)
    requires UniqueIndices(snapshot.gpus) && Sound(snapshot, s)
    requires forall g :: g in groups ==> Subset(g, s.ids)
    ensures Labels(s.snapshot.gpus, groups) == Labels(snapshot.gpus, groups)
  {
    forall k | 0 <= k < |groups| ensures GroupLabels(s.snapshot.gpus, groups[k]) == GroupLabels(snapshot.gpus, groups[k]) {
      assert groups[k] in groups;
      forall m | 0 <= m < |groups[k]| ensures NodeLabel(s.snapshot.gpus, groups[k][m]) == NodeLabel(snapshot.gpus, groups[k][m]) {
        assert groups[k][m] in groups[k];
        SameLabel(snapshot, s, groups[k][m]);
      }
    }
  }

  lemma OneMachineOneLabel(snapshot: Snapshot, s: Selected, groups: seq<Group>)
    requires UniqueIndices(snapshot.gpus) && Sound(snapshot, s)
    requires forall g :: g in groups ==> Subset(g, s.ids) && OneMachine(FabricOf(s.snapshot), g)
    ensures forall labels :: labels in Labels(snapshot.gpus, groups) ==> !SpansMachines(labels)
  {
    var all := Labels(snapshot.gpus, groups);
    forall k | 0 <= k < |groups| ensures !SpansMachines(all[k]) {
      var g := groups[k];
      assert g in groups;
      forall i, j | 0 <= i < j < |g| ensures all[k][i] == all[k][j] {
        assert g[i] in g && g[j] in g;
        SameLabel(snapshot, s, g[i]);
        SameLabel(snapshot, s, g[j]);
      }
    }
  }

  // ------------------------------------------------------------------ what every produced plan is like

  /** Groups of the right size over distinct selected devices, one per replica. */
  ghost predicate Laid(inp: Inputs, p: CandidatePlan) {
    && p.prefill.None? && p.groups != [] && |p.groups| == p.replicas
    && Distinct(Flatten(p.groups))
    && forall g :: g in p.groups ==> g != [] && |g| == GroupTarget(p) && Subset(g, inp.selected.ids)
  }

  /** Settings taken over from the request, with limits that make sense. */
  ghost predicate Configured(inp: Inputs, p: CandidatePlan) {
    && p.context == inp.context && p.objective == Some(inp.workload.objective)
    && Positive(p.maxConcurrency) && Positive(p.maxNumSeqs) && Positive(p.maxRunning) && Positive(p.chunkedPrefill)
    && p.arguments == inp.constraints.arguments
  }

  /** Machine labels as the inventory has them, and a distributed runtime wherever a replica spans machines. */
  ghost predicate Labelled(snapshot: Snapshot, p: CandidatePlan) {
    && (p.replicaNodes.Some? ==> p.replicaNodes.value == Labels(snapshot.gpus, p.groups))
    && ((forall labels :: labels in Labels(snapshot.gpus, p.groups) ==> !SpansMachines(labels))
        || (p.backend.Some? && p.backend.value != ""))
  }

  /** A passing estimate with the recorded fraction. */
  ghost predicate Estimated(inp: Inputs, p: CandidatePlan) {
    exists tp: nat, pp: nat, ids: seq<int> ::
      EstimateFor(inp, tp, pp, ids).Some? && Passes(EstimateFor(inp, tp, pp, ids).value)
      && p.memoryFraction == Some(EstimateFor(inp, tp, pp, ids).value.fraction)
  }

  ghost predicate Produced(snapshot: Snapshot, inp: Inputs, p: CandidatePlan) {
    && (exists engine :: engine in inp.engines && engine.name == p.engine && engine.supports(p))
    && Laid(inp, p) && Configured(inp, p) && Labelled(snapshot, p) && Estimated(inp, p)
  }

  ghost predicate AllProduced(snapshot: Snapshot, inp: Inputs, plans: seq<CandidatePlan>) {
    forall p :: p in plans ==> Produced(snapshot, inp, p)
  }

  /** Inputs as planning has them once devices are selected. */
  ghost predicate Ready(snapshot: Snapshot, inp: Inputs) {
    && UniqueIndices(snapshot.gpus) && Sound(snapshot, inp.selected)
    && inp.constraints.Valid() && forall e :: e in inp.engines ==> e.defaultSeqs >= 1
  }

  lemma SeqsPositive(inp: Inputs, engine: Engine, c50: Option<int>, n: nat)
    requires inp.constraints.Valid() && engine.defaultSeqs >= 1 && n >= 1
    ensures MaxNumSeqs(engine, c50, inp.constraints) >= 1 && MaxNumSeqs(engine, c50, inp.constraints) * n >= 1
  {
    var seqs := MaxNumSeqs(engine, c50, inp.constraints);
    assert seqs >= 1;
    assert (seqs - 1) * n >= 0;
  }

  lemma PlacedGroups(inp: Inputs, tp: nat, groups: seq<Group>)
    requires Inside(FabricOf(inp.selected.snapshot), tp, |groups|, inp.selected.ids, groups)
    ensures Distinct(Flatten(groups))
    ensures forall g :: g in groups ==> |g| == tp && Subset(g, inp.selected.ids) && OneMachine(FabricOf(inp.selected.snapshot), g)
  {
    FlattenDistinct(groups);
  }

  lemma BuiltLaid(inp: Inputs, engine: Engine, tp: nat, groups: seq<Group>, e: Estimate, variant: Variant)
    requires tp >= 1 && groups != []
    requires Inside(FabricOf(inp.selected.snapshot), tp, |groups|, inp.selected.ids, groups)
    ensures Laid(inp, BuildPlan(inp, engine, tp, groups, e, variant))
  {
    var p := BuildPlan(inp, engine, tp, groups, e, variant);
    PlacedGroups(inp, tp, groups);
    assert GroupTarget(p) == tp;
    hide Inside, Distinct, OneMachine, Subset, MaxNumSeqs, Labels, Flatten, GroupTarget;
  }

  lemma BuiltConfigured(inp: Inputs, engine: Engine, tp: nat, groups: seq<Group>, e: Estimate, variant: Variant)
    requires inp.constraints.Valid() && engine.defaultSeqs >= 1 && groups != []
    ensures Configured(inp, BuildPlan(inp, engine, tp, groups, e, variant))
  {
    SeqsPositive(inp, engine, e.c50, |groups|);
    hide MaxNumSeqs, Labels;
  }

  lemma BuiltLabelled(snapshot: Snapshot, inp: Inputs, engine: Engine, tp: nat, groups: seq<Group>, e: Estimate, variant: Variant)
    requires UniqueIndices(snapshot.gpus) && Sound(snapshot, inp.selected)
    requires Inside(FabricOf(inp.selected.snapshot), tp, |groups|, inp.selected.ids, groups)
    ensures Labelled(snapshot, BuildPlan(inp, engine, tp, groups, e, variant))
  {
    PlacedGroups(inp, tp, groups);
    hide Inside, OneMachine, Subset, MaxNumSeqs, Labels, UniqueIndices, Sound, SpansMachines;
    SameLabels(snapshot, inp.selected, groups);
    OneMachineOneLabel(snapshot, inp.selected, groups);
  }

  /** A plan built from groups inside machines. */
  lemma BuiltPlan(snapshot: Snapshot, inp: Inputs, engine: Engine, tp: nat, groups: seq<Group>, variant: Variant)
    requires Ready(snapshot, inp) && engine in inp.engines && tp >= 1 && groups != []
    requires Inside(FabricOf(inp.selected.snapshot), tp, |groups|, inp.selected.ids, groups)
    requires EstimateFor(inp, tp, 1, Flatten(groups)).Some?
    ensures
      var e := EstimateFor(inp, tp, 1, Flatten(groups)).value;
      var p := BuildPlan(inp, engine, tp, groups, e, variant);
      engine.supports(p) && Passes(e) ==> Produced(snapshot, inp, p)
  {
    var e := EstimateFor(inp, tp, 1, Flatten(groups)).value;
    var p := BuildPlan(inp, engine, tp, groups, e, variant);
    BuiltLaid(inp, engine, tp, groups, e, variant);
    BuiltConfigured(inp, engine, tp, groups, e, variant);
    BuiltLabelled(snapshot, inp, engine, tp, groups, e, variant);
    BuiltEngine(inp, engine, tp, groups, e, variant);
    hide Inside, EstimateFor, Flatten, Passes, BuildPlan, Laid, Configured, Labelled, Ready;
    assert Passes(e) ==> Estimated(inp, p);
    hide Estimated;
  }

  lemma BuiltEngine(inp: Inputs, engine: Engine, tp: nat, groups: seq<Group>, e: Estimate, variant: Variant)
    ensures BuildPlan(inp, engine, tp, groups, e, variant).engine == engine.name
    ensures BuildPlan(inp, engine, tp, groups, e, variant).memoryFraction == Some(e.fraction)
  {
  }

  lemma {:induction false} VariantsProduced(
      snapshot: Snapshot, inp: Inputs, engine: Engine, tp: nat, groups: seq<Group>, variants: seq<Variant>)
    requires Ready(snapshot, inp) && engine in inp.engines && tp >= 1 && groups != []
    requires Inside(FabricOf(inp.selected.snapshot), tp, |groups|, inp.selected.ids, groups)
    requires EstimateFor(inp, tp, 1, Flatten(groups)).Some?
    ensures AllProduced(snapshot, inp,
              VariantPlans(inp, engine, tp, groups, EstimateFor(inp, tp, 1, Flatten(groups)).value, variants))
  {
    hide Produced, Ready, Inside, EstimateFor, BuildPlan, Passes;
    if variants != [] {
      var n := |variants| - 1;
      VariantsProduced(snapshot, inp, engine, tp, groups, variants[..n]);
      BuiltPlan(snapshot, inp, engine, tp, groups, variants[n]);
    }
  }

  lemma {:induction false} EnginesProduced(snapshot: Snapshot, inp: Inputs, tp: Size, groups: seq<Group>, engines: seq<Engine>)
    requires Ready(snapshot, inp) && groups != [] && forall e :: e in engines ==> e in inp.engines
    requires Inside(FabricOf(inp.selected.snapshot), tp, |groups|, inp.selected.ids, groups)
    requires EstimateFor(inp, tp, 1, Flatten(groups)).Some?
    ensures AllProduced(snapshot, inp, EnginePlans(inp, tp, groups, EstimateFor(inp, tp, 1, Flatten(groups)).value, engines))
  {
    hide Produced, Ready, Inside, EstimateFor, VariantPlans;
    if engines != [] {
      var n := |engines| - 1;
      EnginesProduced(snapshot, inp, tp, groups, engines[..n]);
      VariantsProduced(snapshot, inp, engines[n], tp, groups, Variants(inp.model, engines[n], tp));
    }
  }

  // ------------------------------------------------------------------ inside machines

  lemma {:induction false} FirstWithFinds(gpus: seq<Gpu>, index: int)
    requires index in Indices(gpus)
    ensures FirstWith(gpus, index) != []
  {
    if gpus[0].index != index {
      var k :| 0 <= k < |gpus| && Indices(gpus)[k] == index;
      assert Indices(gpus[1..])[k - 1] == index;
      FirstWithFinds(gpus[1..], index);
    }
  }

  lemma SomeEstimate(snapshot: Snapshot, inp: Inputs, tp: nat, pp: nat, ids: seq<int>)
    requires Ready(snapshot, inp) && ids != [] && ids[0] in inp.selected.ids
    ensures EstimateFor(inp, tp, pp, ids).Some?
  {
    FirstWithFinds(inp.selected.snapshot.gpus, ids[0]);
    hide EstimateMemory;
  }

  lemma FlattenHead(groups: seq<seq<int>>, ids: seq<int>)
    requires groups != [] && groups[0] != [] && Subset(groups[0], ids)
    ensures Flatten(groups) != [] && Flatten(groups)[0] in ids
  {
    assert groups[0][0] in groups[0] && Flatten(groups)[0] == groups[0][0];
  }

  /** Planning one tensor-parallel size fails only when more replicas are asked for than fit. */
  lemma TpProduced(snapshot: Snapshot, inp: Inputs, tp: Size)
    requires Ready(snapshot, inp)
    requires MaxReplicas(inp.selected, tp, MachineKeys(inp.selected)) >= 1
    ensures
      match PlansForTp(inp, tp)
      case Err(error) => error.TooManyReplicas?
      case Ok(plans) => AllProduced(snapshot, inp, plans)
  {
    hide EnginePlans, EstimateFor, Inside, Plan, MaxReplicas, MachineKeys, Produced;
    if SplitsHeads(inp.model, tp) && ReplicasFor(inp, tp).Ok? {
      var replicas := ReplicasFor(inp, tp).value;
      PlanNeverRaises(snapshot, inp.selected, tp, replicas);
      var groups := Plan(FabricOf(inp.selected.snapshot), tp, replicas, inp.selected.ids, false).value;
      InsideShape(inp, tp, replicas, groups);
      SomeEstimate(snapshot, inp, tp, 1, Flatten(groups));
      EnginesProduced(snapshot, inp, tp, groups, inp.engines);
    }
  }

  lemma InsideShape(inp: Inputs, tp: Size, k: nat, groups: seq<Group>)
    requires Inside(FabricOf(inp.selected.snapshot), tp, k, inp.selected.ids, groups) && k >= 1
    ensures |groups| == k && Flatten(groups) != [] && Flatten(groups)[0] in inp.selected.ids
  {
    assert groups[0] in groups;
    FlattenHead(groups, inp.selected.ids);
  }

  lemma {:induction false} TpsProduced(snapshot: Snapshot, inp: Inputs, tps: seq<Size>)
    requires Ready(snapshot, inp)
    requires forall tp :: tp in tps ==> MaxReplicas(inp.selected, tp, MachineKeys(inp.selected)) >= 1
    ensures
      match PlansForAll(inp, tps)
      case Err(error) => error.TooManyReplicas?
      case Ok(plans) => AllProduced(snapshot, inp, plans)
  {
    hide PlansForTp, Produced, Ready, MaxReplicas;
    if tps != [] {
      var n := |tps| - 1;
      TpsProduced(snapshot, inp, tps[..n]);
      TpProduced(snapshot, inp, tps[n]);
    }
  }

  /** A size that divides the smallest machine fits at least once. */
  lemma TpValuesFit(inp: Inputs, tp: Size)
    requires TpValues(inp).Ok? && tp in TpValues(inp).value
    ensures MaxReplicas(inp.selected, tp, MachineKeys(inp.selected)) >= 1
  {
    var machines := MachineKeys(inp.selected);
    assert machines[0] in machines;
    SomeReplicaFits(inp.selected, tp, machines);
  }

  // ------------------------------------------------------------------ across machines

  lemma {:induction false} NamedFacts(machines: seq<Option<string>>)
    requires Distinct(machines)
    ensures Distinct(Named(machines)) && forall m :: m in Named(machines) <==> m in machines && m.Some?
  {
    if machines != [] {
      assert machines == [machines[0]] + machines[1..];
      assert Distinct(machines[1..]);
      NamedFacts(machines[1..]);
      assert machines[0] !in machines[1..];
    }
  }

  lemma SortedNames(machines: seq<Option<string>>)
    requires Distinct(machines)
    ensures
      var nodes := Sort(Named(machines), NODE_LE);
      Distinct(nodes) && forall m :: m in nodes ==> m in machines
  {
    var named := Named(machines);
    NamedFacts(machines);
    SortPermutes(named, NODE_LE);
    assert SetOf(Sort(named, NODE_LE)) == SetOf(named);
    DistinctCardinality(named);
    FullSetDistinct(Sort(named, NODE_LE));
  }

  lemma {:induction false} OnMachineDistinct(fabric: Fabric, ids: seq<int>, machine: Option<string>)
    requires Distinct(ids)
    ensures Distinct(OnMachine(fabric, ids, machine))
  {
    if ids != [] {
      assert ids == [ids[0]] + ids[1..];
      assert Distinct(ids[1..]) && ids[0] !in ids[1..];
      OnMachineDistinct(fabric, ids[1..], machine);
    }
  }

  /** The devices picked on one machine. */
  lemma PickedHere(snapshot: Snapshot, s: Selected, machine: Option<string>, perNode: nat)
    requires Sound(snapshot, s) && perNode <= MachineSize(s, machine)
    ensures
      var here := Sort(OnMachine(FabricOf(s.snapshot), Indices(s.snapshot.gpus), machine), INT_LE);
      && perNode <= |here| && Distinct(here[..perNode])
      && forall x :: x in here[..perNode] ==> x in s.ids && FabricOf(s.snapshot).NodeOf(x) == machine
  {
    var fabric, indices := FabricOf(s.snapshot), Indices(s.snapshot.gpus);
    IndicesDistinct(s.snapshot.gpus);
    OnMachineDistinct(fabric, indices, machine);
    SortIncreasing(OnMachine(fabric, indices, machine));
    IncreasingDistinct(Sort(OnMachine(fabric, indices, machine), INT_LE));
  }

  lemma OneMore(a: nat, n: nat)
    requires n >= 1
    ensures a * n == a + a * (n - 1)
  {
  }

  /** All of these devices are selected and sit on one of the machines. */
  ghost predicate On(s: Selected, ids: seq<int>, machines: seq<Option<string>>) {
    forall x :: x in ids ==> x in s.ids && FabricOf(s.snapshot).NodeOf(x) in machines
  }

  lemma JoinOn(s: Selected, here: seq<int>, more: seq<int>, machine: Option<string>, rest: seq<Option<string>>)
    requires On(s, here, [machine]) && On(s, more, rest) && machine !in rest && Distinct(here) && Distinct(more)
    ensures On(s, here + more, [machine] + rest) && Distinct(here + more)
  {
    hide FabricOf;
    ConcatDistinct(here, more);
  }

  /** The devices of a replica spanning machines: equally many from each, all distinct. */
  lemma {:induction false} SpreadFacts(snapshot: Snapshot, s: Selected, machines: seq<Option<string>>, perNode: nat)
    requires Sound(snapshot, s) && Distinct(machines)
    requires forall m :: m in machines ==> perNode <= MachineSize(s, m)
    ensures |Spread(s, machines, perNode)| == perNode * |machines| && Distinct(Spread(s, machines, perNode))
    ensures On(s, Spread(s, machines, perNode), machines)
  {
    if machines != [] {
      var rest := machines[1..];
      assert machines == [machines[0]] + rest && Distinct(rest) && machines[0] !in rest;
      PickedHere(snapshot, s, machines[0], perNode);
      var here := Sort(OnMachine(FabricOf(s.snapshot), Indices(s.snapshot.gpus), machines[0]), INT_LE)[..perNode];
      assert On(s, here, [machines[0]]);
      assert Spread(s, machines, perNode) == here + Spread(s, rest, perNode);
      hide MachineSize, Sound, Sort, On, Distinct, Spread;
      SpreadFacts(snapshot, s, rest, perNode);
      JoinOn(s, here, Spread(s, rest, perNode), machines[0], rest);
      OneMore(perNode, |machines|);
    }
  }

  lemma FlattenOne(ids: seq<int>)
    ensures Flatten([ids]) == ids
  {
    assert [ids][1..] == [] && ids + [] == ids;
  }

  lemma CrossLaid(inp: Inputs, engine: Engine, tp: nat, pp: nat, ids: seq<int>, e: Estimate)
    requires ids != [] && |ids| == tp * pp && Distinct(ids) && Subset(ids, inp.selected.ids)
    ensures Laid(inp, CrossPlan(inp, engine, tp, pp, ids, e))
  {
    FlattenOne(ids);
    assert GroupTarget(CrossPlan(inp, engine, tp, pp, ids, e)) == tp * pp;
    hide Distinct, Subset, MaxNumSeqs, Labels, Flatten, GroupTarget;
  }

  lemma CrossConfigured(inp: Inputs, engine: Engine, tp: nat, pp: nat, ids: seq<int>, e: Estimate)
    requires inp.constraints.Valid() && engine.defaultSeqs >= 1
    ensures Configured(inp, CrossPlan(inp, engine, tp, pp, ids, e))
    ensures CrossPlan(inp, engine, tp, pp, ids, e).engine == engine.name
    ensures CrossPlan(inp, engine, tp, pp, ids, e).memoryFraction == Some(e.fraction)
  {
    SeqsPositive(inp, engine, e.c50, 1);
    hide MaxNumSeqs, Labels;
  }

  lemma CrossLabelled(snapshot: Snapshot, inp: Inputs, engine: Engine, tp: nat, pp: nat, ids: seq<int>, e: Estimate)
    requires UniqueIndices(snapshot.gpus) && Sound(snapshot, inp.selected) && Subset(ids, inp.selected.ids)
    ensures Labelled(snapshot, CrossPlan(inp, engine, tp, pp, ids, e))
  {
    hide Sound, UniqueIndices, Subset, MaxNumSeqs, Labels;
    SameLabels(snapshot, inp.selected, [ids]);
  }

  /** A plan spanning machines. */
  lemma BuiltCrossPlan(snapshot: Snapshot, inp: Inputs, engine: Engine, tp: nat, pp: nat, ids: seq<int>)
    requires Ready(snapshot, inp) && engine in inp.engines
    requires ids != [] && |ids| == tp * pp && Distinct(ids) && Subset(ids, inp.selected.ids)
    requires EstimateFor(inp, tp, pp, ids).Some?
    ensures
      var e := EstimateFor(inp, tp, pp, ids).value;
      var p := CrossPlan(inp, engine, tp, pp, ids, e);
      engine.supports(p) && Passes(e) ==> Produced(snapshot, inp, p)
  {
    var e := EstimateFor(inp, tp, pp, ids).value;
    var p := CrossPlan(inp, engine, tp, pp, ids, e);
    CrossLaid(inp, engine, tp, pp, ids, e);
    CrossConfigured(inp, engine, tp, pp, ids, e);
    CrossLabelled(snapshot, inp, engine, tp, pp, ids, e);
    hide EstimateFor, Distinct, Subset, CrossPlan, Passes, Laid, Configured, Labelled, Ready;
    assert Passes(e) ==> Estimated(inp, p);
    hide Estimated;
  }

  lemma {:induction false} ShapesProduced(snapshot: Snapshot, inp: Inputs, engine: Engine, ids: seq<int>, shapes: seq<(nat, nat)>)
    requires Ready(snapshot, inp) && engine in inp.engines
    requires ids != [] && Distinct(ids) && Subset(ids, inp.selected.ids)
    requires forall shape :: shape in shapes ==> |ids| == shape.0 * shape.1
    ensures AllProduced(snapshot, inp, ShapePlans(inp, engine, ids, shapes))
  {
    hide Produced, Ready, EstimateFor, CrossPlan, Passes;
    if shapes != [] {
      var n := |shapes| - 1;
      ShapesProduced(snapshot, inp, engine, ids, shapes[..n]);
      if EstimateFor(inp, shapes[n].0, shapes[n].1, ids).Some? {
        BuiltCrossPlan(snapshot, inp, engine, shapes[n].0, shapes[n].1, ids);
      }
    }
  }

  lemma {:induction false} CrossEnginesProduced(
      snapshot: Snapshot, inp: Inputs, ids: seq<int>, shapes: seq<(nat, nat)>, engines: seq<Engine>)
    requires Ready(snapshot, inp) && forall e :: e in engines ==> e in inp.engines
    requires ids != [] && Distinct(ids) && Subset(ids, inp.selected.ids)
    requires forall shape :: shape in shapes ==> |ids| == shape.0 * shape.1
    ensures AllProduced(snapshot, inp, CrossEnginePlans(inp, ids, shapes, engines))
  {
    hide Produced, Ready, ShapePlans;
    if engines != [] {
      var n := |engines| - 1;
      CrossEnginesProduced(snapshot, inp, ids, shapes, engines[..n]);
      ShapesProduced(snapshot, inp, engines[n], ids, shapes);
    }
  }

  lemma {:induction false} WithTpSubset(shapes: seq<(nat, nat)>, tp: nat)
    ensures forall shape :: shape in WithTp(shapes, tp) ==> shape in shapes
  {
    if shapes != [] {
      WithTpSubset(shapes[1..], tp);
      assert shapes == [shapes[0]] + shapes[1..];
    }
  }

  lemma ShapeSizes(inp: Inputs, perNode: Size, nodes: Size)
    ensures forall shape :: shape in Shapes(inp, perNode, nodes) ==> perNode * nodes == shape.0 * shape.1
  {
    var total := perNode * nodes;
    assert total >= 1;
    var shapes := [(perNode, nodes)] + (if SplitsHeads(inp.model, total) then [(total, 1)] else []);
    if inp.constraints.tp.Some? {
      WithTpSubset(shapes, inp.constraints.tp.value);
    }
  }

  lemma AcrossProduced(snapshot: Snapshot, inp: Inputs, nodes: seq<Option<string>>, perNode: Size)
    requires Ready(snapshot, inp) && Distinct(nodes) && |nodes| >= 1
    requires forall m :: m in nodes ==> perNode <= MachineSize(inp.selected, m)
    ensures AllProduced(snapshot, inp,
              CrossEnginePlans(inp, Spread(inp.selected, nodes, perNode), Shapes(inp, perNode, |nodes|), inp.engines))
  {
    var ids := Spread(inp.selected, nodes, perNode);
    SpreadFacts(snapshot, inp.selected, nodes, perNode);
    ShapeSizes(inp, perNode, |nodes|);
    OneMore(perNode, |nodes|);
    assert ids != [] && Subset(ids, inp.selected.ids);
    hide Produced, Ready, CrossEnginePlans, Shapes, Spread, On;
    CrossEnginesProduced(snapshot, inp, ids, Shapes(inp, perNode, |nodes|), inp.engines);
  }

  lemma CrossProduced(snapshot: Snapshot, inp: Inputs)
    requires Ready(snapshot, inp)
    ensures AllProduced(snapshot, inp, CrossNodePlans(inp))
  {
    MachinesFacts(FabricOf(inp.selected.snapshot), Indices(inp.selected.snapshot.gpus));
    SortedNames(MachineKeys(inp.selected));
    var nodes := Sort(Named(MachineKeys(inp.selected)), NODE_LE);
    hide Produced, Ready, CrossEnginePlans, Shapes, Spread, Sort, Named, MachineKeys;
    if |nodes| >= 2 && LeastSize(inp.selected, nodes) >= 1 {
      AcrossProduced(snapshot, inp, nodes, LeastSize(inp.selected, nodes));
    }
  }

  // ------------------------------------------------------------------ everything together

  lemma {:induction false} DedupedSubset(plans: seq<CandidatePlan>)
    ensures forall p :: p in Deduped(plans) ==> p in plans
  {
    if plans != [] {
      DedupedSubset(plans[..|plans| - 1]);
      assert plans == plans[..|plans| - 1] + [plans[|plans| - 1]];
    }
  }

  /** Deduplication keeps exactly one plan of every structure. */
  lemma {:induction false} DedupedExact(plans: seq<CandidatePlan>)
    ensures Structures(Deduped(plans)) == Structures(plans)
    ensures |Structures(plans)| == |Deduped(plans)|
  {
    if plans != [] {
      var n := |plans| - 1;
      DedupedExact(plans[..n]);
      assert plans == plans[..n] + [plans[n]];
      StructuresNext(plans[..n], plans[n]);
      StructuresNext(Deduped(plans[..n]), plans[n]);
    }
    hide StructureOf, Structures;
  }

  /** The plan kept of each structure is the first that has it. */
  lemma {:induction false} DedupedFirst(plans: seq<CandidatePlan>, i: nat)
    requires i < |plans| && StructureOf(plans[i]) !in Structures(plans[..i])
    ensures plans[i] in Deduped(plans)
  {
    var n := |plans| - 1;
    DedupedExact(plans[..n]);
    if i < n {
      assert plans[..n][..i] == plans[..i];
      DedupedFirst(plans[..n], i);
    }
    hide StructureOf, Structures;
  }

  lemma AllPlansProduced(snapshot: Snapshot, inp: Inputs)
    requires Ready(snapshot, inp)
    ensures
      match AllPlans(inp)
      case Err(error) => !error.Unplaceable?
      case Ok(plans) => AllProduced(snapshot, inp, plans)
  {
    hide Produced, Ready, PlansForAll, CrossNodePlans, Deduped;
    if TpValues(inp).Ok? {
      var tps := TpValues(inp).value;
      forall tp | tp in tps ensures MaxReplicas(inp.selected, tp, MachineKeys(inp.selected)) >= 1 {
        TpValuesFit(inp, tp);
      }
      TpsProduced(snapshot, inp, tps);
      CrossProduced(snapshot, inp);
      hide TpValues;
      if PlansForAll(inp, tps).Ok? {
        DedupedSubset(PlansForAll(inp, tps).value);
        DedupedSubset(PlansForAll(inp, tps).value + CrossNodePlans(inp));
        assert PlansForAll(inp, tps).value + [] == PlansForAll(inp, tps).value;
        forall plans ensures AllProduced(snapshot, inp, plans) ==> AllProduced(snapshot, inp, Sort(plans, Order(inp.workload.objective))) {
          SortPermutes(plans, Order(inp.workload.objective));
        }
      }
    } else {
      TpErrors(inp);
    }
  }

  lemma TpErrors(inp: Inputs)
    ensures TpValues(inp).Err? ==> !TpValues(inp).error.Unplaceable?
  {
  }

  // ------------------------------------------------------------------ against the validator

  /** The contract a run was prepared with, made from the same devices, workload and engines. */
  ghost predicate Prepared(snapshot: Snapshot, workload: Workload, engines: seq<Engine>, contract: Contract) {
    && contract.hardware == snapshot
    && contract.objective == workload.objective && contract.maxContext == workload.maxContext
    && forall e, p :: e in engines && e.supports(p) ==> contract.supports(e.name, p)
  }

  lemma NoDuplicates(s: seq<int>)
    requires Distinct(s)
    ensures !HasDuplicates(s)
  {
  }

  lemma LaidPasses(snapshot: Snapshot, inp: Inputs, p: CandidatePlan)
    requires UniqueIndices(snapshot.gpus) && Sound(snapshot, inp.selected) && Laid(inp, p)
    ensures CheckGroups(p, snapshot).None?
  {
    assert p.groups + [] == p.groups;
    NoDuplicates(PlanIds(p));
    assert p.groups[0] in p.groups;
    FlattenHead(p.groups, inp.selected.ids);
    forall i | i in PlanIds(p) ensures exists g :: g in snapshot.gpus && g.index == i {
      FlattenMembers(p.groups, i);
      SameLabel(snapshot, inp.selected, i);
    }
    hide Distinct, HasDuplicates, Flatten, Sound, GroupTarget, UniqueIndices;
  }

  lemma LabelledPasses(snapshot: Snapshot, p: CandidatePlan)
    requires Labelled(snapshot, p)
    ensures CheckNodes(p, snapshot).None?
  {
    hide Labels, SpansMachines;
  }

  lemma ConfiguredPasses(inp: Inputs, contract: Contract, p: CandidatePlan)
    requires Configured(inp, p) && contract.objective == inp.workload.objective
    ensures CheckLimits(p, contract).None? <==>
              && inp.context >= contract.maxContext && InRange(p.memoryFraction)
              && forall a :: a in inp.constraints.arguments ==> !Owned(a)
  {
    hide Owned, InRange;
  }

  /** A produced plan can only be turned down for its engine, its context, its memory fraction or its arguments. */
  lemma ProducedValidates(snapshot: Snapshot, inp: Inputs, contract: Contract, p: CandidatePlan)
    requires UniqueIndices(snapshot.gpus) && Sound(snapshot, inp.selected)
    requires Produced(snapshot, inp, p) && Prepared(snapshot, inp.workload, inp.engines, contract)
    ensures Validate(p, contract).None? <==>
              && p.engine in contract.engines && inp.context >= contract.maxContext
              && InRange(p.memoryFraction) && forall a :: a in inp.constraints.arguments ==> !Owned(a)
  {
    LaidPasses(snapshot, inp, p);
    LabelledPasses(snapshot, p);
    ConfiguredPasses(inp, contract, p);
    hide Laid, Labelled, Estimated, Configured, CheckGroups, CheckNodes, CheckLimits, InRange, Owned, Sound, UniqueIndices;
  }

  // ------------------------------------------------------------------ the memory fraction

  /** The memory configuration works in hundredths. */
  ghost predicate Hundredths(memory: MemoryConfig) {
    && memory.Valid()
    && Round2(memory.maxFraction) == memory.maxFraction && Round2(memory.minFraction) == memory.minFraction
  }

  /** The default configuration is in hundredths. */
  lemma DefaultInHundredths()
    ensures Hundredths(DEFAULT_MEMORY)
  {
    RoundOfWhole(95);
    RoundOfWhole(30);
    assert 0.95 * 100.0 == 95.0 && 0.30 * 100.0 == 30.0;
  }

  /** Two different hundredths are a hundredth apart. */
  lemma HundredthApart(a: real, b: real)
    requires Round2(a) == a && Round2(b) == b && a < b
    ensures b - a >= 0.01
  {
    var m, n := RoundHalfEven(a * 100.0), RoundHalfEven(b * 100.0);
    assert a == m as real / 100.0 && b == n as real / 100.0;
    assert m < n;
  }

  /** A hundredth of a device of at least a hundred bytes is at least one byte. */
  lemma HundredthOfDevice(f: real, total: nat)
    requires f >= 0.01 && total >= 100
    ensures Share(f, total) >= 1
  {
    ProductOrder(0.01, f, total as real);
    assert 0.01 * total as real >= 1.0;
  }

  lemma {:induction false} LeastTotalFloor(gpus: seq<Gpu>)
    requires gpus != [] && forall g :: g in gpus ==> g.total >= 100
    ensures LeastTotal(gpus) >= 100
  {
    assert gpus[0] in gpus;
    if |gpus| > 1 {
      assert forall g :: g in gpus[1..] ==> g in gpus;
      LeastTotalFloor(gpus[1..]);
    }
  }

  lemma ComputedBounds(total: nat, free: nat, memory: MemoryConfig)
    requires memory.Valid()
    ensures 0.0 <= ComputeFraction(total, free, memory) <= memory.maxFraction
  {
  }

  /** An unforced fraction that passes the memory check is a proper one. */
  lemma UnforcedInRange(
      weights: Option<nat>, gpus: seq<Gpu>, tp: nat, pp: nat, kv: Option<nat>, context: nat, lengths: Lengths,
      memory: MemoryConfig)
    requires Hundredths(memory) && gpus != [] && forall g :: g in gpus ==> g.total >= 100
    requires Passes(EstimateMemory(weights, gpus, tp, pp, kv, context, lengths, memory, None))
    ensures 0.0 < EstimateMemory(weights, gpus, tp, pp, kv, context, lengths, memory, None).fraction < 1.0
  {
    var total, free := AtLeast0(LeastTotal(gpus)), AtLeast0(LeastFree(gpus));
    var fraction := ComputeFraction(total, free, memory);
    LeastTotalFloor(gpus);
    ComputedBounds(total, free, memory);
    ComputedFractionExact(total, free, memory);
    if fraction < memory.minFraction {
      HundredthApart(fraction, memory.minFraction);
      HundredthOfDevice(memory.minFraction - fraction, total);
    }
    hide ComputeFraction, Reserve, ShardedWeights, Round2, Share, CacheNeed, LeastFree, LeastTotal;
  }

  lemma {:induction false} FirstWithSome(gpus: seq<Gpu>, index: int)
    ensures forall g :: g in FirstWith(gpus, index) ==> g in gpus
  {
    if gpus != [] && gpus[0].index != index {
      FirstWithSome(gpus[1..], index);
    }
  }

  lemma {:induction false} DevicesSome(gpus: seq<Gpu>, ids: seq<int>)
    ensures forall g :: g in DevicesOf(gpus, ids) ==> g in gpus
  {
    if ids != [] {
      FirstWithSome(gpus, ids[0]);
      DevicesSome(gpus, ids[1..]);
    }
  }

  /** Whether a forced fraction survives being recorded in hundredths. */
  predicate Recordable(fraction: Option<real>) {
    fraction.Some? ==> 0.005 < fraction.value < 0.995
  }

  lemma FractionInRange(snapshot: Snapshot, inp: Inputs, p: CandidatePlan)
    requires Sound(snapshot, inp.selected) && Produced(snapshot, inp, p) && Hundredths(inp.memory)
    requires forall g :: g in snapshot.gpus ==> g.total >= 100
    ensures InRange(p.memoryFraction) <==> Recordable(inp.constraints.memoryFraction)
  {
    var tp: nat, pp: nat, ids: seq<int> :|
      && EstimateFor(inp, tp, pp, ids).Some? && Passes(EstimateFor(inp, tp, pp, ids).value)
      && p.memoryFraction == Some(EstimateFor(inp, tp, pp, ids).value.fraction);
    var gpus := DevicesOf(inp.selected.snapshot.gpus, ids);
    DevicesSome(inp.selected.snapshot.gpus, ids);
    hide Laid, Configured, Labelled, Estimated, Passes;
    if inp.constraints.memoryFraction.None? {
      hide EstimateMemory;
      UnforcedInRange(inp.model.weights, gpus, tp, pp, inp.model.kv(tp), inp.context, inp.workload.lengths, inp.memory);
    } else {
      RoundedFraction(inp.constraints.memoryFraction.value);
      hide Round2, ComputeFraction, Reserve, ShardedWeights, Share, CacheNeed, LeastFree, LeastTotal;
    }
  }

  // ------------------------------------------------------------------ the theorem

  /**
   * Every candidate the planner offers, plain, expert-parallel, with attention sharded, or spanning
   * machines, passes every check made on a proposal, if and only if its engine was prepared, nothing
   * shrank the context, a forced memory fraction is not so close to one that it rounds up to it, and
   * no extra argument is the controller's own.
   */
  lemma ProducerSatisfiesValidator(
      snapshot: Snapshot, model: Model, workload: Workload, engines: seq<Engine>, constraints: Constraints,
      memory: MemoryConfig, contract: Contract, p: CandidatePlan)
    requires UniqueIndices(snapshot.gpus) && (forall g :: g in snapshot.gpus ==> g.total >= 100)
    requires constraints.Valid() && Hundredths(memory) && forall e :: e in engines ==> e.defaultSeqs >= 1
    requires Prepared(snapshot, workload, engines, contract)
    requires Generate(snapshot, model, workload, engines, constraints, memory).Ok?
    requires p in Generate(snapshot, model, workload, engines, constraints, memory).value
    ensures Validate(p, contract).None? <==>
              && p.engine in contract.engines
              && ContextKept(model, workload, constraints)
              && Recordable(constraints.memoryFraction)
              && forall a :: a in constraints.arguments ==> !Owned(a)
  {
    var selected := SelectGpus(snapshot, constraints.gpuIds).value;
    var context := ResolveContext(model, workload, constraints).value;
    var inp := Inputs(selected, model, workload, engines, constraints, memory, context);
    SelectionSound(snapshot, constraints.gpuIds);
    AllPlansProduced(snapshot, inp);
    ContextCovered(model, workload, constraints);
    hide AllPlans, SelectGpus, ResolveContext, ContextKept, Validate, Produced, Owned, Sound, Hundredths, Recordable, InRange;
    ProducedValidates(snapshot, inp, contract, p);
    FractionInRange(snapshot, inp, p);
  }

  /** Planning never fails because the group planner could not place what was counted to fit. */
  lemma GenerateNeverUnplaceable(
      snapshot: Snapshot, model: Model, workload: Workload, engines: seq<Engine>, constraints: Constraints, memory: MemoryConfig)
    requires UniqueIndices(snapshot.gpus) && constraints.Valid() && forall e :: e in engines ==> e.defaultSeqs >= 1
    ensures
      var r := Generate(snapshot, model, workload, engines, constraints, memory);
      r.Err? ==> !r.error.Unplaceable?
  {
    if engines != [] && SelectGpus(snapshot, constraints.gpuIds).Ok? && ResolveContext(model, workload, constraints).Ok? {
      var selected := SelectGpus(snapshot, constraints.gpuIds).value;
      var context := ResolveContext(model, workload, constraints).value;
      SelectionSound(snapshot, constraints.gpuIds);
      AllPlansProduced(snapshot, Inputs(selected, model, workload, engines, constraints, memory, context));
      hide AllPlans;
    }
  }
}

/** Candidate generation as the planner runs it: nested loops that append to lists. */
module Planning {
  import opened Common
  import opened Sorting
  import opened Hardware
  import opened Partitions
  import opened GpuGroups
  import opened Planner
  import opened Memory
  import opened Selection
  import opened Validation
  import opened Candidates

  /** The variants of one engine that it supports and that fit. */
  method CollectVariants(inp: Inputs, engine: Engine, tp: Size, groups: seq<Group>, e: Estimate) returns (plans: seq<CandidatePlan>)
    ensures plans == VariantPlans(inp, engine, tp, groups, e, Variants(inp.model, engine, tp))
  {
    var variants := Variants(inp.model, engine, tp);
    plans := [];
    hide BuildPlan, Passes, Variants;
    for j := 0 to |variants|
      invariant plans == VariantPlans(inp, engine, tp, groups, e, variants[..j])
    {
      assert variants[..j + 1][..j] == variants[..j];
      var plan := BuildPlan(inp, engine, tp, groups, e, variants[j]);
      if engine.supports(plan) && Passes(e) {
        plans := plans + [plan];
      }
    }
    assert variants[..|variants|] == variants;
  }

  /** The variants of every wanted engine, for one size and placement. */
  method CollectEngines(inp: Inputs, tp: Size, groups: seq<Group>, e: Estimate) returns (plans: seq<CandidatePlan>)
    ensures plans == EnginePlans(inp, tp, groups, e, inp.engines)
  {
    plans := [];
    var engines := inp.engines;
    hide VariantPlans, Variants;
    for i := 0 to |engines|
      invariant plans == EnginePlans(inp, tp, groups, e, engines[..i])
    {
      assert engines[..i + 1][..i] == engines[..i];
      if Wanted(inp, engines[i]) {
        var here := CollectVariants(inp, engines[i], tp, groups, e);
        plans := plans + here;
      }
    }
    assert engines[..|engines|] == engines;
  }

  /** Candidates inside machines, for every tensor-parallel size. */
  method CollectSizes(inp: Inputs, tps: seq<Size>) returns (r: Result<seq<CandidatePlan>, PlanningError>)
    ensures r == PlansForAll(inp, tps)
  {
    var planner := new GPUGroupPlanner(inp.selected.snapshot);
    var plans := [];
    hide Plan, EnginePlans, MaxReplicas, MachineKeys, EstimateFor;
    for i := 0 to |tps|
      invariant planner.Valid() && planner.fabric == FabricOf(inp.selected.snapshot)
      invariant PlansForAll(inp, tps[..i]) == Ok(plans)
    {
      assert tps[..i + 1][..i] == tps[..i];
      if !SplitsHeads(inp.model, tps[i]) {
        assert PlansForTp(inp, tps[i]) == Ok([]) && plans + [] == plans;
        continue;
      }
      var here := CollectSize(inp, planner, tps[i]);
      if here.Err? {
        StopsAt(inp, tps, i, here.error);
        return Err(here.error);
      }
      plans := plans + here.value;
    }
    assert tps[..|tps|] == tps;
    return Ok(plans);
  }

  method CollectSize(inp: Inputs, planner: GPUGroupPlanner, tp: Size) returns (r: Result<seq<CandidatePlan>, PlanningError>)
    requires planner.Valid() && planner.fabric == FabricOf(inp.selected.snapshot) && SplitsHeads(inp.model, tp)
    modifies planner`scoreCache
    ensures planner.Valid() && r == PlansForTp(inp, tp)
  {
    hide Plan, EnginePlans, MaxReplicas, MachineKeys, EstimateFor;
    var replicas := ReplicasFor(inp, tp);
    if replicas.Err? {
      return Err(replicas.error);
    }
    var groups := planner.PlanGroups(tp, replicas.value, inp.selected.ids, false);
    if groups.Err? {
      return Err(Unplaceable(groups.error));
    }
    var estimate := EstimateFor(inp, tp, 1, Flatten(groups.value));
    if estimate.None? {
      return Err(NothingSelected);
    }
    var plans := CollectEngines(inp, tp, groups.value, estimate.value);
    return Ok(plans);
  }

  /** An error at one size ends the whole enumeration with it. */
  lemma {:induction false} StopsAt(inp: Inputs, tps: seq<Size>, i: nat, error: PlanningError)
    requires i < |tps| && PlansForAll(inp, tps[..i]).Ok? && PlansForTp(inp, tps[i]) == Err(error)
    ensures PlansForAll(inp, tps) == Err(error)
    decreases |tps|
  {
    hide PlansForTp;
    var n := |tps| - 1;
    if i < n {
      assert tps[..n][..i] == tps[..i];
      StopsAt(inp, tps[..n], i, error);
    }
  }

  /** One engine's candidates spanning machines. */
  method CollectShapes(inp: Inputs, engine: Engine, ids: seq<int>, shapes: seq<(nat, nat)>) returns (plans: seq<CandidatePlan>)
    ensures plans == ShapePlans(inp, engine, ids, shapes)
  {
    plans := [];
    hide CrossPlan, EstimateFor, Passes;
    for j := 0 to |shapes|
      invariant plans == ShapePlans(inp, engine, ids, shapes[..j])
    {
      assert shapes[..j + 1][..j] == shapes[..j];
      var (tp, pp) := shapes[j];
      var estimate := EstimateFor(inp, tp, pp, ids);
      if estimate.None? || (pp > 1 && !engine.pipeline) {
        continue;
      }
      var plan := CrossPlan(inp, engine, tp, pp, ids, estimate.value);
      if engine.supports(plan) && Passes(estimate.value) {
        plans := plans + [plan];
      }
    }
    assert shapes[..|shapes|] == shapes;
  }

  /** Candidates spanning machines, for every engine and shape. */
  method CollectAcross(inp: Inputs, ids: seq<int>, shapes: seq<(nat, nat)>) returns (plans: seq<CandidatePlan>)
    ensures plans == CrossEnginePlans(inp, ids, shapes, inp.engines)
  {
    plans := [];
    var engines := inp.engines;
    hide ShapePlans;
    for i := 0 to |engines|
      invariant plans == CrossEnginePlans(inp, ids, shapes, engines[..i])
    {
      assert engines[..i + 1][..i] == engines[..i];
      if Wanted(inp, engines[i]) && Distributed(inp, engines[i]) {
        var here := CollectShapes(inp, engines[i], ids, shapes);
        plans := plans + here;
      }
    }
    assert engines[..|engines|] == engines;
  }

  /** Taking one more plan into account. */
  lemma DedupedNext(plans: seq<CandidatePlan>, i: nat)
    requires i < |plans|
    ensures
      var unique := Deduped(plans[..i]);
      Deduped(plans[..i + 1]) == (if StructureOf(plans[i]) in Structures(unique) then unique else unique + [plans[i]])
  {
    hide StructureOf, Structures;
    assert plans[..i + 1][..i] == plans[..i];
  }

  /** The first `n` plans, shared out. */
  ghost predicate SharedOut(plans: seq<CandidatePlan>, n: nat, a: seq<CandidatePlan>, b: seq<CandidatePlan>)
    requires n <= |plans|
  {
    multiset(a) + multiset(b) == multiset(plans[..n])
  }

  lemma SharedNext(plans: seq<CandidatePlan>, i: nat, a: seq<CandidatePlan>, b: seq<CandidatePlan>)
    requires i < |plans| && SharedOut(plans, i, a, b)
    ensures SharedOut(plans, i + 1, a + [plans[i]], b) && SharedOut(plans, i + 1, a, b + [plans[i]])
  {
    assert plans[..i + 1] == plans[..i] + [plans[i]];
  }

  /** Split plans into the first of each structure and the rest. */
  method Dedupe(plans: seq<CandidatePlan>) returns (unique: seq<CandidatePlan>, dupes: seq<CandidatePlan>)
    ensures unique == Deduped(plans)
    ensures multiset(unique) + multiset(dupes) == multiset(plans)
  {
    var seen: set<Structure> := {};
    unique, dupes := [], [];
    NoStructures();
    assert plans[..|plans|] == plans && plans[..0] == [] && Deduped([]) == [] && SharedOut(plans, 0, [], []);
    assert forall a, b :: SharedOut(plans, |plans|, a, b) ==> multiset(a) + multiset(b) == multiset(plans);
    hide StructureOf, Structures, Deduped, SharedOut;
    for i := 0 to |plans|
      invariant unique == Deduped(plans[..i]) && seen == Structures(unique)
      invariant SharedOut(plans, i, unique, dupes)
    {
      DedupedNext(plans, i);
      SharedNext(plans, i, unique, dupes);
      StructuresNext(unique, plans[i]);
      var key := StructureOf(plans[i]);
      if key in seen {
        dupes := dupes + [plans[i]];
      } else {
        seen := seen + {key};
        unique := unique + [plans[i]];
      }
    }
  }

  lemma NoStructures()
    ensures Structures([]) == {}
  {
  }

  method GenerateCandidates(
      snapshot: Snapshot, model: Model, workload: Workload, engines: seq<Engine>, constraints: Constraints,
      memory: MemoryConfig) returns (r: Result<seq<CandidatePlan>, PlanningError>)
    ensures r == Generate(snapshot, model, workload, engines, constraints, memory)
  {
    if engines == [] {
      return Err(NoEngines);
    }
    var selected := SelectGpus(snapshot, constraints.gpuIds);
    if selected.Err? {
      return Err(Unselectable(selected.error));
    }
    var context := ResolveContext(model, workload, constraints);
    if context.Err? {
      return Err(context.error);
    }
    var inp := Inputs(selected.value, model, workload, engines, constraints, memory, context.value);
    hide SelectGpus, ResolveContext, Deduped;
    r := CollectAll(inp);
  }

  method CollectAll(inp: Inputs) returns (r: Result<seq<CandidatePlan>, PlanningError>)
    ensures r == AllPlans(inp)
  {
    hide PlansForAll, CrossEnginePlans, Deduped, Spread, Shapes, MachineKeys;
    var tps := TpValues(inp);
    if tps.Err? {
      return Err(tps.error);
    }
    hide TpValues;
    var inside := CollectSizes(inp, tps.value);
    if inside.Err? {
      return Err(inside.error);
    }
    var plans := inside.value;
    if inp.selected.snapshot.IsCluster() && (plans == [] || inp.selected.snapshot.provider == "ssh") {
      var across := CollectCrossNode(inp);
      plans := plans + across;
    } else {
      assert plans + [] == plans;
    }
    var unique, _ := Dedupe(plans);
    if unique == [] {
      return Err(NothingFits);
    }
    return Ok(Sort(unique, Order(inp.workload.objective)));
  }

  method CollectCrossNode(inp: Inputs) returns (plans: seq<CandidatePlan>)
    ensures plans == CrossNodePlans(inp)
  {
    var nodes := Sort(Named(MachineKeys(inp.selected)), NODE_LE);
    hide CrossEnginePlans, Spread, Shapes, Sort, MachineKeys;
    if |nodes| < 2 || (inp.constraints.replicas.Some? && inp.constraints.replicas.value != 1) {
      return [];
    }
    var perNode := LeastSize(inp.selected, nodes);
    if perNode == 0 {
      return [];
    }
    plans := CollectAcross(inp, Spread(inp.selected, nodes, perNode), Shapes(inp, perNode, |nodes|));
  }
}

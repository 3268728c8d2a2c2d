/** Exactly which topologies candidate generation offers: nothing that qualifies is left out, and nothing else is offered. */
module Offering {
  import opened Common
  import opened Sorting
  import opened Schemas
  import opened Hardware
  import opened Combinations
  import opened Partitions
  import opened GpuGroups
  import opened Placement
  import opened Memory
  import opened Selection
  import opened Validation
  import opened Candidates
  import opened Producer

  // ------------------------------------------------------------------ the context

  /** The context wanted: what the caller says, a zero counting as nothing, or else what the workload needs. */
  function ContextWanted(workload: Workload, constraints: Constraints): nat {
    if constraints.context == Some(0) || constraints.context.None? then workload.maxContext else constraints.context.value
  }

  /**
   * The context is the one wanted, or the model's limit where that is smaller, the caller said nothing
   * and almost all sequences fit it; it is refused where they do not, and beyond the limit unless
   * overriding is allowed.
   */
  lemma ContextExact(model: Model, workload: Workload, constraints: Constraints)
    ensures
      var wanted := ContextWanted(workload, constraints);
      var beyond := model.maxPositions.Some? && wanted > model.maxPositions.value;
      ResolveContext(model, workload, constraints) ==
        if !beyond then Ok(wanted)
        else if constraints.context.Some? then (if constraints.allowOverride then Ok(wanted) else Err(ContextTooLong))
        else if workload.lengths.p95 <= model.maxPositions.value then Ok(model.maxPositions.value)
        else Err(WorkloadTooLong)
  {
  }

  // ------------------------------------------------------------------ what qualifies

  /** The size divides the smallest machine, and is the one asked for, if one was. */
  ghost predicate SizeOffered(inp: Inputs, tp: Size) {
    && (inp.constraints.tp.None? || inp.constraints.tp.value == tp)
    && exists m :: m in MachineKeys(inp.selected) && Smallest(inp, m) && Divides(tp, MachineSize(inp.selected, m))
  }

  ghost predicate Smallest(inp: Inputs, machine: Option<string>) {
    forall m :: m in MachineKeys(inp.selected) ==> MachineSize(inp.selected, machine) <= MachineSize(inp.selected, m)
  }

  predicate Divides(d: Size, n: nat) {
    d <= n && n % d == 0
  }

  /** The engine may shard the model this way. */
  predicate Applies(model: Model, engine: Engine, tp: Size, variant: Variant) {
    match variant
    case Plain => true
    case ExpertParallel => model.moe && tp > 1 && engine.expertParallel && (model.experts.None? || model.experts.value % tp == 0)
    case DpAttention => model.moe && tp > 1 && engine.dpAttention
  }

  /** How a size is laid out: as many replicas as asked for, or as fit; and what the layout needs. */
  ghost predicate LaidOut(inp: Inputs, tp: Size, groups: seq<Group>, e: Estimate) {
    var most := MaxReplicas(inp.selected, tp, MachineKeys(inp.selected));
    var replicas := if inp.constraints.replicas.Some? then inp.constraints.replicas.value else most;
    && replicas <= most
    && Plan(FabricOf(inp.selected.snapshot), tp, replicas, inp.selected.ids, false) == Ok(groups)
    && EstimateFor(inp, tp, 1, Flatten(groups)) == Some(e)
  }

  /** This size, engine and variant inside machines qualify: allowed, applicable, supported and within memory. */
  ghost predicate Qualifies(inp: Inputs, tp: Size, engine: Engine, variant: Variant, groups: seq<Group>, e: Estimate) {
    && SizeOffered(inp, tp) && (inp.model.heads.None? || inp.model.heads.value % tp == 0)
    && engine in inp.engines && (inp.constraints.engine.None? || inp.constraints.engine.value == engine.name)
    && Applies(inp.model, engine, tp, variant)
    && LaidOut(inp, tp, groups, e) && Passes(e) && engine.supports(BuildPlan(inp, engine, tp, groups, e, variant))
  }

  function InsideStructure(inp: Inputs, tp: Size, engine: Engine, variant: Variant, groups: seq<Group>): Structure {
    Structure(engine.name, tp, 1, if variant.DpAttention? then tp else 1, |groups|,
      if variant.Plain? then 0 else tp, variant.DpAttention?, inp.context, groups, "", None)
  }

  /** The plan is the one a qualifying combination calls for. */
  ghost predicate CalledFor(inp: Inputs, p: CandidatePlan, tp: Size, engine: Engine, variant: Variant, groups: seq<Group>, e: Estimate) {
    Qualifies(inp, tp, engine, variant, groups, e) && p == BuildPlan(inp, engine, tp, groups, e, variant)
  }

  // ------------------------------------------------------------------ the loops, one by one

  lemma VariantsExact(model: Model, engine: Engine, tp: Size, variant: Variant)
    ensures variant in Variants(model, engine, tp) <==> Applies(model, engine, tp, variant)
  {
    var plain: seq<Variant> := [Plain];
    var experts := if model.moe && tp > 1 && engine.expertParallel && SplitsExperts(model, tp) then [ExpertParallel] else [];
    var attention := if model.moe && tp > 1 && engine.dpAttention then [DpAttention] else [];
    assert Variants(model, engine, tp) == plain + experts + attention;
    assert Plain in plain;
    assert variant in Variants(model, engine, tp) <==> variant in plain || variant in experts || variant in attention;
  }

  lemma {:induction false} VariantMember(
      inp: Inputs, engine: Engine, tp: Size, groups: seq<Group>, e: Estimate, variants: seq<Variant>, p: CandidatePlan)
    ensures p in VariantPlans(inp, engine, tp, groups, e, variants) <==>
              exists v :: v in variants && p == BuildPlan(inp, engine, tp, groups, e, v) && engine.supports(p) && Passes(e)
  {
    hide BuildPlan, Passes;
    if variants != [] {
      var n := |variants| - 1;
      VariantMember(inp, engine, tp, groups, e, variants[..n], p);
      assert variants == variants[..n] + [variants[n]];
    }
  }

  lemma {:induction false} EngineMember(
      inp: Inputs, tp: Size, groups: seq<Group>, e: Estimate, engines: seq<Engine>, p: CandidatePlan)
    ensures p in EnginePlans(inp, tp, groups, e, engines) <==>
              exists engine :: engine in engines && Wanted(inp, engine)
                && p in VariantPlans(inp, engine, tp, groups, e, Variants(inp.model, engine, tp))
  {
    hide VariantPlans, Variants;
    if engines != [] {
      var n := |engines| - 1;
      EngineMember(inp, tp, groups, e, engines[..n], p);
      assert engines == engines[..n] + [engines[n]];
    }
  }

  lemma {:induction false} SizesMember(inp: Inputs, tps: seq<Size>, p: CandidatePlan)
    requires PlansForAll(inp, tps).Ok?
    ensures forall tp :: tp in tps ==> PlansForTp(inp, tp).Ok?
    ensures p in PlansForAll(inp, tps).value <==> exists tp :: tp in tps && p in PlansForTp(inp, tp).value
  {
    hide PlansForTp;
    if tps != [] {
      var n := |tps| - 1;
      SizesMember(inp, tps[..n], p);
      assert tps == tps[..n] + [tps[n]];
    }
  }

  /** The sizes tried are those that divide the smallest machine, or the one asked for if it does. */
  lemma SizesExact(inp: Inputs, tp: Size)
    requires TpValues(inp).Ok?
    ensures tp in TpValues(inp).value <==> SizeOffered(inp, tp)
  {
    var machines := MachineKeys(inp.selected);
    var least := LeastSize(inp.selected, machines);
    var m :| m in machines && least == MachineSize(inp.selected, m);
    assert Smallest(inp, m);
    assert tp in Divisors(least) <==> Divides(tp, least);
    forall other | other in machines && Smallest(inp, other) ensures MachineSize(inp.selected, other) == least {
      assert MachineSize(inp.selected, other) <= MachineSize(inp.selected, m);
    }
    hide MachineKeys, MachineSize, LeastSize, Divisors;
  }

  lemma OneSize(inp: Inputs, tp: Size, p: CandidatePlan)
    requires PlansForTp(inp, tp).Ok? && SizeOffered(inp, tp)
    ensures p in PlansForTp(inp, tp).value <==>
              exists engine, variant, groups, e :: CalledFor(inp, p, tp, engine, variant, groups, e)
  {
    hide BuildPlan, Passes, Variants, Plan, MaxReplicas, MachineKeys, EstimateFor, SizeOffered;
    hide Applies, VariantPlans, EnginePlans;
    if SplitsHeads(inp.model, tp) {
      var groups := Plan(FabricOf(inp.selected.snapshot), tp, ReplicasFor(inp, tp).value, inp.selected.ids, false).value;
      var e := EstimateFor(inp, tp, 1, Flatten(groups)).value;
      assert LaidOut(inp, tp, groups, e);
      EngineMember(inp, tp, groups, e, inp.engines, p);
      forall engine: Engine, v: Variant
        ensures v in Variants(inp.model, engine, tp) <==> Applies(inp.model, engine, tp, v)
      {
        VariantsExact(inp.model, engine, tp, v);
      }
      forall engine: Engine
        ensures p in VariantPlans(inp, engine, tp, groups, e, Variants(inp.model, engine, tp)) <==>
                  exists v :: v in Variants(inp.model, engine, tp) && p == BuildPlan(inp, engine, tp, groups, e, v)
                              && engine.supports(p) && Passes(e)
      {
        VariantMember(inp, engine, tp, groups, e, Variants(inp.model, engine, tp), p);
      }
      OneLayout(inp, tp, groups, e, p);
    }
  }

  /** With the layout settled, membership comes down to an engine and a variant. */
  lemma OneLayout(inp: Inputs, tp: Size, groups: seq<Group>, e: Estimate, p: CandidatePlan)
    requires SizeOffered(inp, tp) && SplitsHeads(inp.model, tp) && LaidOut(inp, tp, groups, e)
    ensures (exists engine, v :: engine in inp.engines && Wanted(inp, engine) && Applies(inp.model, engine, tp, v)
                                 && p == BuildPlan(inp, engine, tp, groups, e, v) && engine.supports(p) && Passes(e))
       <==> exists engine, v, gs, f :: CalledFor(inp, p, tp, engine, v, gs, f)
  {
    hide BuildPlan, Passes, Plan, MaxReplicas, MachineKeys, EstimateFor, SizeOffered, Applies;
    if engine, v :| engine in inp.engines && Wanted(inp, engine) && Applies(inp.model, engine, tp, v)
                    && p == BuildPlan(inp, engine, tp, groups, e, v) && engine.supports(p) && Passes(e) {
      assert CalledFor(inp, p, tp, engine, v, groups, e);
    }
    if engine, v, gs, f :| CalledFor(inp, p, tp, engine, v, gs, f) {
      assert gs == groups && f == e;
    }
  }

  /** The plans inside machines are exactly those that qualifying combinations call for. */
  lemma InsideExact(inp: Inputs, p: CandidatePlan)
    requires TpValues(inp).Ok? && PlansForAll(inp, TpValues(inp).value).Ok?
    ensures p in PlansForAll(inp, TpValues(inp).value).value <==> OfferedInside(inp, p)
  {
    hide CalledFor, PlansForTp, TpValues;
    SizesMember(inp, TpValues(inp).value, p);
    forall tp: Size ensures tp in TpValues(inp).value <==> SizeOffered(inp, tp) {
      SizesExact(inp, tp);
    }
    forall tp: Size | SizeOffered(inp, tp)
      ensures p in PlansForTp(inp, tp).value <==>
                exists engine, variant, groups, e :: CalledFor(inp, p, tp, engine, variant, groups, e)
    {
      OneSize(inp, tp, p);
    }
    forall tp: Size, engine, variant, groups, e | CalledFor(inp, p, tp, engine, variant, groups, e) ensures SizeOffered(inp, tp) {
      CalledForSize(inp, p, tp, engine, variant, groups, e);
    }
    hide SizeOffered;
  }

  lemma CalledForSize(inp: Inputs, p: CandidatePlan, tp: Size, engine: Engine, variant: Variant, groups: seq<Group>, e: Estimate)
    requires CalledFor(inp, p, tp, engine, variant, groups, e)
    ensures SizeOffered(inp, tp)
  {
  }

  ghost predicate OfferedInside(inp: Inputs, p: CandidatePlan) {
    exists tp: Size, engine, variant, groups, e :: CalledFor(inp, p, tp, engine, variant, groups, e)
  }

  // ------------------------------------------------------------------ across machines

  /** One stage of a machine's devices per machine, or all devices in one group if the heads split that way. */
  predicate ShapeOf(inp: Inputs, perNode: Size, nodes: nat, tp: nat, pp: nat) {
    && (|| (tp == perNode && pp == nodes)
        || (tp == perNode * nodes && pp == 1 && tp >= 1 && (inp.model.heads.None? || inp.model.heads.value % tp == 0)))
    && (inp.constraints.tp.None? || inp.constraints.tp.value == tp)
  }

  /** A replica across the named machines qualifies: wanted, distributable, staged if need be, supported and within memory. */
  ghost predicate QualifiesAcross(inp: Inputs, ids: seq<int>, engine: Engine, tp: nat, pp: nat, e: Estimate) {
    && engine in inp.engines && (inp.constraints.engine.None? || inp.constraints.engine.value == engine.name)
    && (engine.ray || (inp.selected.snapshot.provider == "ssh" && engine.native)) && (pp > 1 ==> engine.pipeline)
    && EstimateFor(inp, tp, pp, ids) == Some(e) && Passes(e) && engine.supports(CrossPlan(inp, engine, tp, pp, ids, e))
  }

  ghost predicate CalledForAcross(
    inp: Inputs, p: CandidatePlan, perNode: Size, nodes: nat, ids: seq<int>, engine: Engine, tp: nat, pp: nat, e: Estimate)
  {
    && ShapeOf(inp, perNode, nodes, tp, pp) && QualifiesAcross(inp, ids, engine, tp, pp, e)
    && p == CrossPlan(inp, engine, tp, pp, ids, e)
  }

  lemma {:induction false} WithTpMember(shapes: seq<(nat, nat)>, tp: nat, shape: (nat, nat))
    ensures shape in WithTp(shapes, tp) <==> shape in shapes && shape.0 == tp
  {
    if shapes != [] {
      WithTpMember(shapes[1..], tp, shape);
      assert shapes == [shapes[0]] + shapes[1..];
    }
  }

  lemma ShapesExact(inp: Inputs, perNode: Size, nodes: Size, shape: (nat, nat))
    ensures shape in Shapes(inp, perNode, nodes) <==> ShapeOf(inp, perNode, nodes, shape.0, shape.1)
  {
    assert perNode * nodes >= 1;
    var total := perNode * nodes;
    var first: seq<(nat, nat)> := [(perNode, nodes)];
    var second: seq<(nat, nat)> := if SplitsHeads(inp.model, total) then [(total, 1)] else [];
    assert shape in first + second <==> shape in first || shape in second;
    if inp.constraints.tp.Some? {
      WithTpMember(first + second, inp.constraints.tp.value, shape);
    }
  }

  lemma {:induction false} ShapeMember(inp: Inputs, engine: Engine, ids: seq<int>, shapes: seq<(nat, nat)>, p: CandidatePlan)
    ensures p in ShapePlans(inp, engine, ids, shapes) <==>
              exists shape, e :: shape in shapes && EstimateFor(inp, shape.0, shape.1, ids) == Some(e)
                && (shape.1 > 1 ==> engine.pipeline)
                && p == CrossPlan(inp, engine, shape.0, shape.1, ids, e) && engine.supports(p) && Passes(e)
  {
    hide CrossPlan, Passes, EstimateFor;
    if shapes != [] {
      var n := |shapes| - 1;
      ShapeMember(inp, engine, ids, shapes[..n], p);
      assert shapes == shapes[..n] + [shapes[n]];
    }
  }

  lemma {:induction false} AcrossMember(inp: Inputs, ids: seq<int>, shapes: seq<(nat, nat)>, engines: seq<Engine>, p: CandidatePlan)
    ensures p in CrossEnginePlans(inp, ids, shapes, engines) <==>
              exists engine :: engine in engines && Wanted(inp, engine) && Distributed(inp, engine)
                               && p in ShapePlans(inp, engine, ids, shapes)
  {
    hide ShapePlans;
    if engines != [] {
      var n := |engines| - 1;
      AcrossMember(inp, ids, shapes, engines[..n], p);
      assert engines == engines[..n] + [engines[n]];
    }
  }

  /** The named machines in order, and as many devices of each as the smallest has. */
  ghost predicate Across(inp: Inputs, nodes: seq<Option<string>>, perNode: Size, ids: seq<int>) {
    && nodes == Sort(Named(MachineKeys(inp.selected)), NODE_LE) && |nodes| >= 2
    && perNode == LeastSize(inp.selected, nodes)
    && ids == Spread(inp.selected, nodes, perNode)
  }

  ghost predicate OfferedAcross(inp: Inputs, p: CandidatePlan) {
    && (inp.constraints.replicas.None? || inp.constraints.replicas.value == 1)
    && exists nodes, perNode: Size, ids, engine, tp, pp, e ::
         Across(inp, nodes, perNode, ids) && CalledForAcross(inp, p, perNode, |nodes|, ids, engine, tp, pp, e)
  }

  /** The plans across machines are exactly those that qualifying combinations call for. */
  lemma AcrossExact(inp: Inputs, p: CandidatePlan)
    ensures p in CrossNodePlans(inp) <==> OfferedAcross(inp, p)
  {
    var nodes := Sort(Named(MachineKeys(inp.selected)), NODE_LE);
    hide MachineKeys, Named, Sort, Spread, CrossEnginePlans, CalledForAcross, Shapes;
    if |nodes| >= 2 && LeastSize(inp.selected, nodes) >= 1 {
      var perNode: Size := LeastSize(inp.selected, nodes);
      var ids := Spread(inp.selected, nodes, perNode);
      assert Across(inp, nodes, perNode, ids);
      AcrossLaidOut(inp, perNode, |nodes|, ids, p);
    }
  }

  lemma AcrossLaidOut(inp: Inputs, perNode: Size, nodes: Size, ids: seq<int>, p: CandidatePlan)
    ensures p in CrossEnginePlans(inp, ids, Shapes(inp, perNode, nodes), inp.engines) <==>
              exists engine, tp, pp, e :: CalledForAcross(inp, p, perNode, nodes, ids, engine, tp, pp, e)
  {
    var shapes := Shapes(inp, perNode, nodes);
    hide CrossPlan, Passes, EstimateFor, ShapeOf, Shapes, ShapePlans, CrossEnginePlans;
    AcrossMember(inp, ids, shapes, inp.engines, p);
    forall shape: (nat, nat) ensures shape in shapes <==> ShapeOf(inp, perNode, nodes, shape.0, shape.1) {
      ShapesExact(inp, perNode, nodes, shape);
    }
    forall engine: Engine
      ensures p in ShapePlans(inp, engine, ids, shapes) <==>
                exists shape, e :: shape in shapes && EstimateFor(inp, shape.0, shape.1, ids) == Some(e)
                  && (shape.1 > 1 ==> engine.pipeline)
                  && p == CrossPlan(inp, engine, shape.0, shape.1, ids, e) && engine.supports(p) && Passes(e)
    {
      ShapeMember(inp, engine, ids, shapes, p);
    }
    if engine, tp, pp, e :| CalledForAcross(inp, p, perNode, nodes, ids, engine, tp, pp, e) {
      var shape: (nat, nat) := (tp, pp);
      assert shape in shapes && EstimateFor(inp, shape.0, shape.1, ids) == Some(e);
      assert p == CrossPlan(inp, engine, shape.0, shape.1, ids, e);
    }
    if p in CrossEnginePlans(inp, ids, shapes, inp.engines) {
      var engine :| engine in inp.engines && Wanted(inp, engine) && Distributed(inp, engine) && p in ShapePlans(inp, engine, ids, shapes);
      var shape, e :| shape in shapes && EstimateFor(inp, shape.0, shape.1, ids) == Some(e)
                  && (shape.1 > 1 ==> engine.pipeline)
                  && p == CrossPlan(inp, engine, shape.0, shape.1, ids, e) && engine.supports(p) && Passes(e);
      assert CalledForAcross(inp, p, perNode, nodes, ids, engine, shape.0, shape.1, e);
    }
  }

  // ------------------------------------------------------------------ everything offered

  /** Plans across machines are due in a cluster when nothing qualifies inside machines, and always over SSH. */
  ghost predicate AcrossDue(inp: Inputs) {
    && |inp.selected.snapshot.nodes| > 1
    && (inp.selected.snapshot.provider == "ssh" || forall p :: !OfferedInside(inp, p))
  }

  ghost predicate Offered(inp: Inputs, p: CandidatePlan) {
    OfferedInside(inp, p) || (AcrossDue(inp) && OfferedAcross(inp, p))
  }

  /**
   * A topology is among the candidates if and only if some qualifying combination calls for a plan of
   * it; each candidate is such a plan; and generation comes back with nothing only if none qualifies.
   */
  lemma OfferedExactly(inp: Inputs)
    ensures
      match AllPlans(inp)
      case Ok(plans) =>
        && (forall p :: p in plans ==> Offered(inp, p))
        && (forall p :: Offered(inp, p) ==> exists q :: q in plans && StructureOf(q) == StructureOf(p))
      case Err(error) => error.NothingFits? ==> forall p :: !Offered(inp, p)
  {
    if TpValues(inp).Ok? && PlansForAll(inp, TpValues(inp).value).Ok? {
      var inside := PlansForAll(inp, TpValues(inp).value).value;
      hide TpValues, PlansForAll, CrossNodePlans, Offered, Order, Sort, Deduped;
      forall p ensures p in inside <==> OfferedInside(inp, p) {
        InsideExact(inp, p);
      }
      CombinedExactly(inp, inside);
      hide StructureOf, OfferedInside;
    } else {
      NoFittingError(inp);
    }
  }

  /** The plans to choose from, before deduplication. */
  function Combined(inp: Inputs, inside: seq<CandidatePlan>): seq<CandidatePlan> {
    var cross := inp.selected.snapshot.IsCluster() && (inside == [] || inp.selected.snapshot.provider == "ssh");
    inside + (if cross then CrossNodePlans(inp) else [])
  }

  lemma CombinedExactly(inp: Inputs, inside: seq<CandidatePlan>)
    requires forall p :: p in inside <==> OfferedInside(inp, p)
    ensures
      var unique := Deduped(Combined(inp, inside));
      var plans := Sort(unique, Order(inp.workload.objective));
      && (forall p :: p in plans ==> Offered(inp, p))
      && (forall p :: Offered(inp, p) ==> exists q :: q in plans && StructureOf(q) == StructureOf(p))
      && (unique == [] ==> forall p :: !Offered(inp, p))
  {
    hide StructureOf, OfferedInside, OfferedAcross, Order, Sort, Deduped, CrossNodePlans;
    CombinedMembers(inp, inside);
    KeptStructures(Combined(inp, inside), Order(inp.workload.objective));
    hide Combined, Offered;
  }

  lemma CombinedMembers(inp: Inputs, inside: seq<CandidatePlan>)
    requires forall p :: p in inside <==> OfferedInside(inp, p)
    ensures forall p :: p in Combined(inp, inside) <==> Offered(inp, p)
  {
    var across := CrossNodePlans(inp);
    hide OfferedInside, OfferedAcross, CrossNodePlans;
    forall p ensures p in across <==> OfferedAcross(inp, p) {
      AcrossExact(inp, p);
    }
    if inside != [] {
      assert inside[0] in inside;
    }
    assert inside == [] <==> forall p :: !OfferedInside(inp, p);
  }

  lemma NoFittingError(inp: Inputs)
    ensures TpValues(inp).Err? ==> !TpValues(inp).error.NothingFits?
    ensures TpValues(inp).Ok? && PlansForAll(inp, TpValues(inp).value).Err? ==>
              !PlansForAll(inp, TpValues(inp).value).error.NothingFits?
  {
    if TpValues(inp).Ok? {
      LoopErrors(inp, TpValues(inp).value);
    }
    hide PlansForAll;
  }

  lemma {:induction false} LoopErrors(inp: Inputs, tps: seq<Size>)
    ensures PlansForAll(inp, tps).Err? ==> !PlansForAll(inp, tps).error.NothingFits?
  {
    if tps != [] {
      LoopErrors(inp, tps[..|tps| - 1]);
      OneSizeError(inp, tps[|tps| - 1]);
    }
    hide PlansForTp;
  }

  lemma OneSizeError(inp: Inputs, tp: Size)
    ensures PlansForTp(inp, tp).Err? ==> !PlansForTp(inp, tp).error.NothingFits?
  {
    hide Plan, EstimateFor, EnginePlans;
  }

  /** Deduplicating and ordering lose no structure and invent no plan. */
  lemma KeptStructures(all: seq<CandidatePlan>, le: (CandidatePlan, CandidatePlan) -> bool)
    ensures forall p :: p in Sort(Deduped(all), le) ==> p in all
    ensures forall p :: p in all ==> exists q :: q in Sort(Deduped(all), le) && StructureOf(q) == StructureOf(p)
    ensures Deduped(all) == [] <==> all == []
  {
    var unique := Deduped(all);
    DedupedSubset(all);
    DedupedExact(all);
    SortPermutes(unique, le);
    assert forall k :: 0 <= k < |unique| ==> unique[k] in unique;
    hide *;
    forall p | p in all ensures exists q :: q in Sort(unique, le) && StructureOf(q) == StructureOf(p) {
      InStructures(all, p);
      var q := WithStructure(unique, StructureOf(p));
    }
    if all != [] {
      InStructures(all, all[0]);
      var q := WithStructure(unique, StructureOf(all[0]));
    }
  }

  lemma InStructures(plans: seq<CandidatePlan>, p: CandidatePlan)
    requires p in plans
    ensures StructureOf(p) in Structures(plans)
  {
    hide StructureOf;
  }

  lemma WithStructure(plans: seq<CandidatePlan>, structure: Structure) returns (q: CandidatePlan)
    requires structure in Structures(plans)
    ensures q in plans && StructureOf(q) == structure
  {
    hide StructureOf;
    q :| q in plans && StructureOf(q) == structure;
  }

  /** The limit on sequences: what the user says, else the engine's default, else the estimate kept between 16 and 1024. */
  ghost predicate SequenceLimit(limit: int, inp: Inputs, engine: Engine, estimated: Option<int>) {
    if inp.constraints.maxConcurrency.Some? then limit == inp.constraints.maxConcurrency.value
    else if estimated.None? then limit == engine.defaultSeqs
    else
      && 16 <= limit <= 1024
      && (limit == estimated.value || (limit == 16 && estimated.value < 16) || (limit == 1024 && estimated.value > 1024))
  }

  /** What a candidate's topology and settings are, read off the combination that calls for it. */
  lemma PlanRead(inp: Inputs, tp: Size, engine: Engine, variant: Variant, groups: seq<Group>, e: Estimate)
    ensures
      var p := BuildPlan(inp, engine, tp, groups, e, variant);
      && StructureOf(p) == InsideStructure(inp, tp, engine, variant, groups)
      && p.context == inp.context && p.memoryFraction == Some(e.fraction) && p.objective == Some(inp.workload.objective)
      && p.arguments == inp.constraints.arguments
      && p.maxNumSeqs.Some? && p.maxRunning == p.maxNumSeqs && SequenceLimit(p.maxNumSeqs.value, inp, engine, e.c50)
      && (p.maxConcurrency.Some? ==> p.maxConcurrency.value == p.maxNumSeqs.value * |groups|)
      && (p.maxConcurrency.None? <==> p.maxNumSeqs.value * |groups| == 0)
  {
  }

  /** The same of a replica across machines. */
  lemma AcrossPlanRead(inp: Inputs, engine: Engine, tp: nat, pp: nat, ids: seq<int>, e: Estimate)
    ensures
      var p := CrossPlan(inp, engine, tp, pp, ids, e);
      && StructureOf(p) == Structure(engine.name, tp, pp, 1, 1, 0, false, inp.context, [ids],
           if inp.selected.snapshot.provider != "ssh" || !engine.native then "ray"
           else if engine.name == "vllm" then "mp" else "native", None)
      && p.memoryFraction == Some(e.fraction) && p.objective == Some(inp.workload.objective)
      && p.arguments == inp.constraints.arguments
      && p.maxNumSeqs.Some? && p.maxRunning == p.maxNumSeqs && p.maxConcurrency == p.maxNumSeqs
      && SequenceLimit(p.maxNumSeqs.value, inp, engine, e.c50)
  {
  }

  lemma {:induction false} SpreadOn(s: Selected, machines: seq<Option<string>>, perNode: nat)
    ensures forall x :: x in Spread(s, machines, perNode) ==>
              x in Indices(s.snapshot.gpus) && FabricOf(s.snapshot).NodeOf(x) in machines
  {
    if machines != [] {
      var here := OnMachine(FabricOf(s.snapshot), Indices(s.snapshot.gpus), machines[0]);
      SpreadOn(s, machines[1..], perNode);
      SortPermutes(here, INT_LE);
      assert machines == [machines[0]] + machines[1..];
    }
  }

  /** A replica across machines takes the lowest-numbered devices of each. */
  lemma {:induction false} SpreadLowest(s: Selected, machines: seq<Option<string>>, perNode: nat, x: int, y: int)
    requires UniqueIndices(s.snapshot.gpus) && Distinct(machines)
    requires x in Spread(s, machines, perNode) && y in Indices(s.snapshot.gpus) && y !in Spread(s, machines, perNode)
    requires FabricOf(s.snapshot).NodeOf(x) == FabricOf(s.snapshot).NodeOf(y)
    ensures x < y
  {
    var fabric, indices := FabricOf(s.snapshot), Indices(s.snapshot.gpus);
    var rest := machines[1..];
    var here := Sort(OnMachine(fabric, indices, machines[0]), INT_LE);
    SpreadOn(s, rest, perNode);
    IndicesDistinct(s.snapshot.gpus);
    OnMachineDistinct(fabric, indices, machines[0]);
    SortIncreasing(OnMachine(fabric, indices, machines[0]));
    assert machines == [machines[0]] + rest && machines[0] !in rest;
    var picked := if perNode <= |here| then here[..perNode] else here;
    assert Spread(s, machines, perNode) == picked + Spread(s, rest, perNode);
    if fabric.NodeOf(x) == machines[0] {
      assert y in here && x in picked && y !in picked;
      Earlier(here, perNode, x, y);
    } else {
      assert x !in picked;
      SpreadLowest(s, rest, perNode, x, y);
    }
  }

  lemma Earlier(here: seq<int>, n: nat, x: int, y: int)
    requires Increasing(here) && n <= |here| && x in here[..n] && y in here && y !in here[..n]
    ensures x < y
  {
    var i :| 0 <= i < n && here[..n][i] == x;
    var j :| 0 <= j < |here| && here[j] == y;
    forall k | 0 <= k < n ensures here[k] in here[..n] {
      assert here[..n][k] == here[k];
    }
  }
}

/** Enumerating candidate topologies. */
module Candidates {
  import opened Arithmetic
  import opened Common
  import opened Sorting
  import opened Schemas
  import opened Hardware
  import opened Combinations
  import opened Partitions
  import opened GpuGroups
  import opened Placement
  import opened Memory
  import opened Selection
  import opened Validation

  /** A tensor-parallel size. */
  type Size = n: nat | n >= 1 witness 1

  const MAX_NUM_SEQS_FLOOR := 16
  const MAX_NUM_SEQS_CEILING := 1024

  /** The model's shape, as far as planning reads it; `kv` is the cache per token at a tensor-parallel size. */
  datatype Model = Model(
    heads: Option<nat>, experts: Option<nat>, moe: bool, maxPositions: Option<nat>, weights: Option<nat>,
    kv: nat -> Option<nat>)

  datatype Workload = Workload(objective: Objective, maxContext: nat, lengths: Lengths)

  datatype Constraints = Constraints(
    engine: Option<string>, tp: Option<nat>, replicas: Option<nat>, gpuIds: Option<seq<int>>, context: Option<nat>,
    maxConcurrency: Option<nat>, memoryFraction: Option<real>, allowOverride: bool, arguments: seq<string>)
  {
    /** What the schema's validators enforce. */
    ghost predicate Valid() {
      && (tp.Some? ==> tp.value >= 1) && (replicas.Some? ==> replicas.value >= 1)
      && (maxConcurrency.Some? ==> maxConcurrency.value >= 1)
      && (memoryFraction.Some? ==> 0.0 < memoryFraction.value < 1.0)
    }
  }

  datatype Engine = Engine(
    name: string, expertParallel: bool, dpAttention: bool, ray: bool, native: bool, pipeline: bool, defaultSeqs: nat,
    supports: CandidatePlan -> bool)

  datatype PlanningError =
    | NoEngines | Unselectable(error: SelectionError) | NothingSelected
    | WorkloadTooLong | ContextTooLong | TpImpossible | TooManyReplicas | Unplaceable(reason: PlanError) | NothingFits

  /** Everything a planning run works from once devices and context are settled. */
  datatype Inputs = Inputs(
    selected: Selected, model: Model, workload: Workload, engines: seq<Engine>, constraints: Constraints,
    memory: MemoryConfig, context: nat)

  // ------------------------------------------------------------------ context

  function ResolveContext(model: Model, workload: Workload, constraints: Constraints): Result<nat, PlanningError> {
    var requested := if constraints.context.Some? && constraints.context.value != 0 then constraints.context.value else workload.maxContext;
    var limit := model.maxPositions;
    var context :=
      if limit.Some? && requested > limit.value && constraints.context.None?
      then (if workload.lengths.p95 > limit.value then None else Some(limit.value)) else Some(requested);
    if context.None? then Err(WorkloadTooLong)
    else if limit.Some? && context.value > limit.value && !constraints.allowOverride then Err(ContextTooLong)
    else Ok(context.value)
  }

  /** Planning keeps the context the workload requires. */
  predicate ContextKept(model: Model, workload: Workload, constraints: Constraints) {
    if constraints.context.Some? && constraints.context.value != 0 then constraints.context.value >= workload.maxContext
    else constraints.context.Some? || model.maxPositions.None? || workload.maxContext <= model.maxPositions.value
  }

  /** The resolved context covers the workload exactly when nothing shrinks it: neither the caller nor the model's limit. */
  lemma ContextCovered(model: Model, workload: Workload, constraints: Constraints)
    requires ResolveContext(model, workload, constraints).Ok?
    ensures ResolveContext(model, workload, constraints).value >= workload.maxContext <==> ContextKept(model, workload, constraints)
  {
  }

  // ------------------------------------------------------------------ one candidate

  function Divisors(n: nat): (ds: seq<Size>)
    ensures forall d: nat :: d in ds <==> 1 <= d <= n && n % d == 0
  {
    DivisorsUpTo(n, n)
  }

  function DivisorsUpTo(n: nat, m: nat): (ds: seq<Size>)
    ensures forall d: nat :: d in ds <==> 1 <= d <= m && n % d == 0
  {
    if m == 0 then []
    else if n % m == 0 then DivisorsUpTo(n, m - 1) + [m] else DivisorsUpTo(n, m - 1)
  }

  predicate SplitsHeads(model: Model, tp: Size)
  {
    model.heads.None? || model.heads.value % tp == 0
  }

  predicate SplitsExperts(model: Model, ep: Size)
  {
    model.experts.None? || model.experts.value % ep == 0
  }

  function ClampSeqs(c50: int): int {
    Max(MAX_NUM_SEQS_FLOOR, Min(MAX_NUM_SEQS_CEILING, c50))
  }

  function MaxNumSeqs(engine: Engine, c50: Option<int>, constraints: Constraints): int {
    if constraints.maxConcurrency.Some? then constraints.maxConcurrency.value
    else if c50.None? then engine.defaultSeqs else ClampSeqs(c50.value)
  }

  /** How a variant shards: not at all, experts only, or experts and attention. */
  datatype Variant = Plain | ExpertParallel | DpAttention

  function Variants(model: Model, engine: Engine, tp: Size): seq<Variant>
  {
    [Plain]
    + (if model.moe && tp > 1 && engine.expertParallel && SplitsExperts(model, tp) then [ExpertParallel] else [])
    + (if model.moe && tp > 1 && engine.dpAttention then [DpAttention] else [])
  }

  /** The selected devices with the given indices, in that order. */
  function DevicesOf(gpus: seq<Gpu>, ids: seq<int>): seq<Gpu> {
    if ids == [] then [] else FirstWith(gpus, ids[0]) + DevicesOf(gpus, ids[1..])
  }

  function FirstWith(gpus: seq<Gpu>, index: int): seq<Gpu> {
    if gpus == [] then [] else if gpus[0].index == index then [gpus[0]] else FirstWith(gpus[1..], index)
  }

  function EstimateFor(inp: Inputs, tp: nat, pp: nat, ids: seq<int>): Option<Estimate> {
    var gpus := DevicesOf(inp.selected.snapshot.gpus, ids);
    if gpus == [] then None
    else
      Some(EstimateMemory(inp.model.weights, gpus, tp, pp, inp.model.kv(tp), inp.context, inp.workload.lengths, inp.memory,
        inp.constraints.memoryFraction))
  }

  function Positively(n: int): Option<int> {
    if n != 0 then Some(n) else None
  }

  function BuildPlan(inp: Inputs, engine: Engine, tp: nat, groups: seq<Group>, e: Estimate, variant: Variant): CandidatePlan {
    var seqs := MaxNumSeqs(engine, e.c50, inp.constraints);
    CandidatePlan(engine.name, groups, tp, if variant.DpAttention? then tp else 1, 1, |groups|,
      if variant.Plain? then None else Some(tp), !variant.Plain?, variant.DpAttention?, None,
      if inp.selected.snapshot.nodes != [] then Some(Labels(inp.selected.snapshot.gpus, groups)) else None,
      inp.context, Some(inp.workload.objective), Some(e.fraction), Positively(seqs * |groups|), Some(seqs), Some(seqs), None,
      inp.constraints.arguments, None)
  }

  predicate Wanted(inp: Inputs, engine: Engine) {
    inp.constraints.engine.None? || inp.constraints.engine.value == engine.name
  }

  /** The plans of the first variants that the engine supports and the memory model lets pass. */
  function VariantPlans(inp: Inputs, engine: Engine, tp: nat, groups: seq<Group>, e: Estimate, variants: seq<Variant>)
    : seq<CandidatePlan>
  {
    if variants == [] then []
    else
      var n := |variants| - 1;
      var plan := BuildPlan(inp, engine, tp, groups, e, variants[n]);
      VariantPlans(inp, engine, tp, groups, e, variants[..n])
      + (if engine.supports(plan) && Passes(e) then [plan] else [])
  }

  function EnginePlans(inp: Inputs, tp: Size, groups: seq<Group>, e: Estimate, engines: seq<Engine>): seq<CandidatePlan>
  {
    if engines == [] then []
    else
      var n := |engines| - 1;
      EnginePlans(inp, tp, groups, e, engines[..n])
      + (if Wanted(inp, engines[n]) then VariantPlans(inp, engines[n], tp, groups, e, Variants(inp.model, engines[n], tp)) else [])
  }

  // ------------------------------------------------------------------ inside machines

  function ReplicasFor(inp: Inputs, tp: Size): Result<nat, PlanningError>
  {
    var most := MaxReplicas(inp.selected, tp, MachineKeys(inp.selected));
    if inp.constraints.replicas.None? then Ok(most)
    else if inp.constraints.replicas.value > most then Err(TooManyReplicas)
    else Ok(inp.constraints.replicas.value)
  }

  function PlansForTp(inp: Inputs, tp: Size): Result<seq<CandidatePlan>, PlanningError>
  {
    if !SplitsHeads(inp.model, tp) then Ok([])
    else
      match ReplicasFor(inp, tp)
      case Err(error) => Err(error)
      case Ok(replicas) =>
        match Plan(FabricOf(inp.selected.snapshot), tp, replicas, inp.selected.ids, false)
        case Err(reason) => Err(Unplaceable(reason))
        case Ok(groups) =>
          var e := EstimateFor(inp, tp, 1, Flatten(groups));
          if e.None? then Err(NothingSelected) else Ok(EnginePlans(inp, tp, groups, e.value, inp.engines))
  }

  function PlansForAll(inp: Inputs, tps: seq<Size>): Result<seq<CandidatePlan>, PlanningError>
  {
    if tps == [] then Ok([])
    else
      var n := |tps| - 1;
      match PlansForAll(inp, tps[..n])
      case Err(error) => Err(error)
      case Ok(earlier) =>
        match PlansForTp(inp, tps[n])
        case Err(error) => Err(error)
        case Ok(plans) => Ok(earlier + plans)
  }

  // ------------------------------------------------------------------ across machines

  function Named(machines: seq<Option<string>>): seq<Option<string>> {
    if machines == [] then [] else (if machines[0].Some? then [machines[0]] else []) + Named(machines[1..])
  }

  /** The same number of lowest-numbered devices from each machine. */
  function Spread(s: Selected, machines: seq<Option<string>>, perNode: nat): seq<int> {
    if machines == [] then []
    else
      var here := Sort(OnMachine(FabricOf(s.snapshot), Indices(s.snapshot.gpus), machines[0]), INT_LE);
      (if perNode <= |here| then here[..perNode] else here) + Spread(s, machines[1..], perNode)
  }

  function Shapes(inp: Inputs, perNode: Size, nodes: Size): seq<(nat, nat)>
  {
    assert perNode * nodes >= 1;
    var total := perNode * nodes;
    var shapes := [(perNode, nodes)] + (if SplitsHeads(inp.model, total) then [(total, 1)] else []);
    if inp.constraints.tp.None? then shapes else WithTp(shapes, inp.constraints.tp.value)
  }

  function WithTp(shapes: seq<(nat, nat)>, tp: nat): seq<(nat, nat)> {
    if shapes == [] then [] else (if shapes[0].0 == tp then [shapes[0]] else []) + WithTp(shapes[1..], tp)
  }

  function Backend(inp: Inputs, engine: Engine): string {
    if inp.selected.snapshot.provider == "ssh" && engine.native then (if engine.name == "vllm" then "mp" else "native") else "ray"
  }

  function CrossPlan(inp: Inputs, engine: Engine, tp: nat, pp: nat, ids: seq<int>, e: Estimate): CandidatePlan {
    var seqs := MaxNumSeqs(engine, e.c50, inp.constraints);
    CandidatePlan(engine.name, [ids], tp, 1, pp, 1, None, false, false, Some(Backend(inp, engine)),
      Some(Labels(inp.selected.snapshot.gpus, [ids])), inp.context, Some(inp.workload.objective), Some(e.fraction),
      Some(seqs), Some(seqs), Some(seqs), None, inp.constraints.arguments, None)
  }

  function ShapePlans(inp: Inputs, engine: Engine, ids: seq<int>, shapes: seq<(nat, nat)>): seq<CandidatePlan> {
    if shapes == [] then []
    else
      var n := |shapes| - 1;
      var (tp, pp) := shapes[n];
      var earlier := ShapePlans(inp, engine, ids, shapes[..n]);
      var e := EstimateFor(inp, tp, pp, ids);
      if e.None? || (pp > 1 && !engine.pipeline) then earlier
      else
        var plan := CrossPlan(inp, engine, tp, pp, ids, e.value);
        earlier + (if engine.supports(plan) && Passes(e.value) then [plan] else [])
  }

  predicate Distributed(inp: Inputs, engine: Engine) {
    engine.ray || (inp.selected.snapshot.provider == "ssh" && engine.native)
  }

  function CrossEnginePlans(inp: Inputs, ids: seq<int>, shapes: seq<(nat, nat)>, engines: seq<Engine>): seq<CandidatePlan> {
    if engines == [] then []
    else
      var n := |engines| - 1;
      CrossEnginePlans(inp, ids, shapes, engines[..n])
      + (if Wanted(inp, engines[n]) && Distributed(inp, engines[n]) then ShapePlans(inp, engines[n], ids, shapes) else [])
  }

  /** Single replicas spanning every named machine. */
  function CrossNodePlans(inp: Inputs): seq<CandidatePlan> {
    var nodes := Sort(Named(MachineKeys(inp.selected)), NODE_LE);
    if |nodes| < 2 || (inp.constraints.replicas.Some? && inp.constraints.replicas.value != 1) then []
    else
      var perNode := LeastSize(inp.selected, nodes);
      if perNode == 0 then []
      else
        CrossEnginePlans(inp, Spread(inp.selected, nodes, perNode), Shapes(inp, perNode, |nodes|), inp.engines)
  }

  // ------------------------------------------------------------------ all candidates

  function TpValues(inp: Inputs): Result<seq<Size>, PlanningError>
  {
    var machines := MachineKeys(inp.selected);
    if machines == [] then Err(NothingSelected)
    else
      var perNode := LeastSize(inp.selected, machines);
      var tps := Divisors(perNode);
      if inp.constraints.tp.None? then Ok(tps)
      else if inp.constraints.tp.value in tps then Ok([inp.constraints.tp.value])
      else if inp.constraints.tp.value > perNode && inp.selected.snapshot.IsCluster() then Ok([])
      else Err(TpImpossible)
  }

  /** What identifies a topology, tunable settings aside. */
  datatype Structure = Structure(
    engine: string, tp: nat, pp: nat, dp: nat, replicas: nat, ep: nat, dpAttention: bool, context: nat,
    groups: seq<seq<int>>, backend: string, prefill: Option<Prefill>)

  function StructureOf(p: CandidatePlan): Structure {
    Structure(p.engine, p.tp, p.pp, p.dp, p.replicas,
      if p.expertParallel && p.expertSize.Some? then p.expertSize.value else 0, p.dpAttention, p.context, p.groups,
      if p.backend.Some? then p.backend.value else "", p.prefill)
  }

  function Structures(plans: seq<CandidatePlan>): set<Structure> {
    set p | p in plans :: StructureOf(p)
  }

  lemma StructuresNext(plans: seq<CandidatePlan>, p: CandidatePlan)
    ensures Structures(plans + [p]) == Structures(plans) + {StructureOf(p)}
  {
    hide StructureOf;
  }

  /** First occurrences of each structure. */
  function Deduped(plans: seq<CandidatePlan>): seq<CandidatePlan> {
    if plans == [] then []
    else
      var n := |plans| - 1;
      var earlier := Deduped(plans[..n]);
      if StructureOf(plans[n]) in Structures(earlier) then earlier else earlier + [plans[n]]
  }

  /**
   * Which of two candidates to benchmark first: by tensor-parallel size (larger first where latency
   * matters), then fewer pipeline stages, then plain layouts, then the engine's name.
   */
  predicate Sooner(objective: Objective, p: CandidatePlan, q: CandidatePlan) {
    var a, b := SizeKey(objective, p), SizeKey(objective, q);
    if a != b then a < b
    else if p.pp != q.pp then p.pp < q.pp
    else if Special(p) != Special(q) then !Special(p)
    else StringLe(p.engine, q.engine)
  }

  function SizeKey(objective: Objective, p: CandidatePlan): int {
    if objective.Latency? then 0 - p.tp else p.tp
  }

  predicate Special(p: CandidatePlan) {
    p.expertParallel || p.dpAttention
  }

  function Order(objective: Objective): (CandidatePlan, CandidatePlan) -> bool {
    (p: CandidatePlan, q: CandidatePlan) => Sooner(objective, p, q)
  }

  function AllPlans(inp: Inputs): Result<seq<CandidatePlan>, PlanningError> {
    match TpValues(inp)
    case Err(error) => Err(error)
    case Ok(tps) =>
      match PlansForAll(inp, tps)
      case Err(error) => Err(error)
      case Ok(plans) =>
        var cross := inp.selected.snapshot.IsCluster() && (plans == [] || inp.selected.snapshot.provider == "ssh");
        var unique := Deduped(plans + (if cross then CrossNodePlans(inp) else []));
        if unique == [] then Err(NothingFits) else Ok(Sort(unique, Order(inp.workload.objective)))
  }

  function Generate(
      snapshot: Snapshot, model: Model, workload: Workload, engines: seq<Engine>, constraints: Constraints,
      memory: MemoryConfig): Result<seq<CandidatePlan>, PlanningError>
  {
    if engines == [] then Err(NoEngines)
    else
      match SelectGpus(snapshot, constraints.gpuIds)
      case Err(error) => Err(Unselectable(error))
      case Ok(selected) =>
        match ResolveContext(model, workload, constraints)
        case Err(error) => Err(error)
        case Ok(context) => AllPlans(Inputs(selected, model, workload, engines, constraints, memory, context))
  }
}

/** Candidate plans, and the checks a proposed plan must pass before anything is launched. */
module Validation {
  import opened Common
  import opened Schemas
  import opened Hardware
  import opened GpuGroups

  datatype Prefill = Prefill(groups: seq<seq<int>>, tp: nat, pp: nat)

  datatype CandidatePlan = CandidatePlan(
    engine: string, groups: seq<seq<int>>, tp: nat, dp: nat, pp: nat, replicas: nat,
    expertSize: Option<nat>, expertParallel: bool, dpAttention: bool, backend: Option<string>,
    replicaNodes: Option<seq<seq<string>>>, context: nat, objective: Option<Objective>, memoryFraction: Option<real>,
    maxConcurrency: Option<int>, maxNumSeqs: Option<int>, maxRunning: Option<int>, chunkedPrefill: Option<int>,
    arguments: seq<string>, prefill: Option<Prefill>)

  /** What a run was prepared with: devices, requirements, engines, and each engine's own verdict on a plan. */
  datatype Contract = Contract(
    hardware: Snapshot, objective: Objective, maxContext: nat, engines: set<string>, supports: (string, CandidatePlan) -> bool)

  datatype Rejection =
    | EngineNotPrepared | GroupsMissing | GpuShared | GpuUnknown | GroupSize | PrefillUnsupported | PrefillGroupSize
    | ContextReduced | ObjectiveChanged | FractionOutOfRange | LimitNotPositive | ArgumentOwned
    | NodesMismatch | BackendMissing | EngineRefuses

  // ------------------------------------------------------------------ engine arguments

  /** Argument names that belong to the plan or the controller. */
  const OWNED: set<string> := {
    "model", "model-path", "revision", "tokenizer", "tokenizer-path", "tokenizer-revision", "served-model-name",
    "host", "port", "api-key", "trust-remote-code", "max-model-len", "context-length", "tp", "tp-size",
    "tensor-parallel-size", "pp", "pp-size", "pipeline-parallel-size", "dp", "dp-size", "data-parallel-size",
    "data-parallel-size-local", "data-parallel-start-rank", "data-parallel-address", "data-parallel-rpc-port",
    "data-parallel-backend", "headless", "nnodes", "node-rank", "master-addr", "master-port", "dist-init-addr",
    "distributed-executor-backend", "gpu-memory-utilization", "mem-fraction-static", "max-num-seqs",
    "max-running-requests", "cuda-visible-devices", "load-format", "profiler-config", "disaggregation-mode",
    "disaggregation-transfer-backend", "disaggregation-bootstrap-port", "base-gpu-id"
  }

  function StripDashes(s: string): string {
    if s != [] && s[0] == '-' then StripDashes(s[1..]) else s
  }

  function Hyphenate(s: string): string {
    if s == [] then [] else [if s[0] == '_' then '-' else s[0]] + Hyphenate(s[1..])
  }

  function Before(s: string, stop: char): string {
    if s == [] || s[0] == stop then [] else [s[0]] + Before(s[1..], stop)
  }

  function Normalize(key: string): string {
    Before(Before(Hyphenate(StripDashes(key)), '='), '.')
  }

  predicate Owned(key: string) {
    Normalize(key) in OWNED
  }

  // ------------------------------------------------------------------ devices

  function Flatten(groups: seq<seq<int>>): seq<int> {
    if groups == [] then [] else groups[0] + Flatten(groups[1..])
  }

  /** Every device the plan names, decode groups first. */
  function PlanIds(plan: CandidatePlan): seq<int> {
    Flatten(plan.groups + (if plan.prefill.Some? then plan.prefill.value.groups else []))
  }

  predicate HasDuplicates(s: seq<int>) {
    exists i, j :: 0 <= i < j < |s| && s[i] == s[j]
  }

  /** The label of a device's machine: its first entry's node, or "local". */
  function NodeLabel(gpus: seq<Gpu>, index: int): string {
    if gpus == [] then "local"
    else if gpus[0].index == index then LabelOf(gpus[0].nodeId)
    else NodeLabel(gpus[1..], index)
  }

  function LabelOf(node: Option<string>): string {
    if node.Some? && node.value != "" then node.value else "local"
  }

  function GroupLabels(gpus: seq<Gpu>, group: seq<int>): (labels: seq<string>)
    ensures |labels| == |group|
  {
    seq(|group|, k requires 0 <= k < |group| => NodeLabel(gpus, group[k]))
  }

  function Labels(gpus: seq<Gpu>, groups: seq<seq<int>>): (labels: seq<seq<string>>)
    ensures |labels| == |groups|
  {
    seq(|groups|, k requires 0 <= k < |groups| => GroupLabels(gpus, groups[k]))
  }

  predicate SpansMachines(labels: seq<string>) {
    exists i, j :: 0 <= i < j < |labels| && labels[i] != labels[j]
  }

  // ------------------------------------------------------------------ the checks, in order

  predicate Positive(limit: Option<int>) {
    limit.Some? ==> limit.value >= 1
  }

  predicate InRange(fraction: Option<real>) {
    fraction.Some? ==> 0.0 < fraction.value < 1.0
  }

  function GroupTarget(plan: CandidatePlan): nat {
    if plan.dpAttention then plan.tp * plan.pp else plan.tp * plan.pp * plan.dp
  }

  function CheckGroups(plan: CandidatePlan, hardware: Snapshot): Option<Rejection> {
    var ids := PlanIds(plan);
    if plan.groups == [] || |plan.groups| != plan.replicas then Some(GroupsMissing)
    else if HasDuplicates(ids) || ids == [] || (exists g | g in plan.groups :: g == []) then Some(GpuShared)
    else if exists i | i in ids :: forall g | g in hardware.gpus :: g.index != i then Some(GpuUnknown)
    else if exists g | g in plan.groups :: |g| != GroupTarget(plan) then Some(GroupSize)
    else CheckPrefill(plan)
  }

  function CheckPrefill(plan: CandidatePlan): Option<Rejection> {
    if plan.prefill.None? then None
    else if plan.engine != "sglang" || plan.replicas != 1 || plan.dp != 1 || plan.dpAttention then Some(PrefillUnsupported)
    else if exists g | g in plan.prefill.value.groups :: |g| != plan.prefill.value.tp * plan.prefill.value.pp
    then Some(PrefillGroupSize) else None
  }

  function CheckLimits(plan: CandidatePlan, contract: Contract): Option<Rejection> {
    if plan.context < contract.maxContext then Some(ContextReduced)
    else if plan.objective.Some? && plan.objective.value != contract.objective then Some(ObjectiveChanged)
    else if !InRange(plan.memoryFraction) then Some(FractionOutOfRange)
    else if !Positive(plan.maxConcurrency) || !Positive(plan.maxNumSeqs) || !Positive(plan.maxRunning)
            || !Positive(plan.chunkedPrefill)
    then Some(LimitNotPositive)
    else if exists a | a in plan.arguments :: Owned(a) then Some(ArgumentOwned)
    else None
  }

  function CheckNodes(plan: CandidatePlan, hardware: Snapshot): Option<Rejection> {
    var actual := Labels(hardware.gpus, plan.groups);
    if plan.replicaNodes.Some? && plan.replicaNodes.value != actual then Some(NodesMismatch)
    else if (exists labels | labels in actual :: SpansMachines(labels))
            && (plan.backend.None? || plan.backend.value == "")
    then Some(BackendMissing) else None
  }

  /** The first check the plan fails, if any. */
  function Validate(plan: CandidatePlan, contract: Contract): Option<Rejection> {
    if plan.engine !in contract.engines then Some(EngineNotPrepared)
    else
      var groups := CheckGroups(plan, contract.hardware);
      if groups.Some? then groups
      else
        var limits := CheckLimits(plan, contract);
        if limits.Some? then limits
        else
          var nodes := CheckNodes(plan, contract.hardware);
          if nodes.Some? then nodes
          else if !contract.supports(plan.engine, plan) then Some(EngineRefuses) else None
  }

  lemma {:induction false} FlattenSize(groups: seq<seq<int>>, size: nat)
    requires forall g :: g in groups ==> |g| == size
    ensures |Flatten(groups)| == size * |groups|
  {
    if groups != [] {
      assert groups == [groups[0]] + groups[1..];
      FlattenSize(groups[1..], size);
      assert size * |groups| == size + size * (|groups| - 1);
    }
  }

  lemma {:induction false} KnownDevicesBound(ids: seq<int>, gpus: seq<Gpu>)
    requires Distinct(ids) && forall i :: i in ids ==> exists g :: g in gpus && g.index == i
    ensures |ids| <= |gpus|
  {
    var indices := set g | g in gpus :: g.index;
    forall i | i in SetOf(ids) ensures i in indices {
    }
    DistinctCardinality(ids);
    SubsetCardinality(SetOf(ids), indices);
    IndexCount(gpus);
  }

  lemma {:induction false} IndexCount(gpus: seq<Gpu>)
    ensures |set g | g in gpus :: g.index| <= |gpus|
  {
    if gpus != [] {
      IndexCount(gpus[1..]);
      assert gpus == [gpus[0]] + gpus[1..];
      assert (set g | g in gpus :: g.index) == {gpus[0].index} + (set g | g in gpus[1..] :: g.index);
    }
  }

  /** An accepted plan never shares a device, and never needs more devices than there are. */
  lemma AcceptedFits(plan: CandidatePlan, contract: Contract)
    requires Validate(plan, contract).None?
    ensures Distinct(PlanIds(plan)) && |PlanIds(plan)| <= |contract.hardware.gpus|
    ensures plan.replicas >= 1 && |Flatten(plan.groups)| == GroupTarget(plan) * plan.replicas
  {
    hide CheckLimits, CheckNodes, CheckPrefill, GroupTarget;
    assert !HasDuplicates(PlanIds(plan));
    FlattenSize(plan.groups, GroupTarget(plan));
    hide Flatten;
    KnownDevicesBound(PlanIds(plan), contract.hardware.gpus);
  }
}

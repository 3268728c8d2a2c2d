/** Exactly which proposals pass the checks against the run's contract, and why the others do not. */
module Acceptance {
  import opened Common
  import opened Schemas
  import opened Hardware
  import opened Validation

  // ------------------------------------------------------------------ argument names

  /** The name an argument sets: without leading dashes, up to a `=` or a `.`, underscores read as dashes. */
  ghost predicate Names(key: string, name: string) {
    exists dashes: nat :: NamesAfter(key, dashes, name)
  }

  ghost predicate NamesAfter(key: string, dashes: nat, name: string) {
    && dashes + |name| <= |key|
    && (forall i :: 0 <= i < dashes ==> key[i] == '-') && (dashes < |key| ==> key[dashes] != '-')
    && (forall p: nat :: dashes <= p < dashes + |name| ==> !Ends(key, p)) && Ends(key, dashes + |name|)
    && forall i :: 0 <= i < |name| ==> name[i] == Dashed(key[dashes + i])
  }

  /** A name does not go on at this place of an argument. */
  predicate Ends(key: string, p: nat) {
    p >= |key| || key[p] == '=' || key[p] == '.'
  }

  function Dashed(c: char): char {
    if c == '_' then '-' else c
  }

  lemma {:induction false} StripExact(key: string) returns (dashes: nat)
    ensures dashes <= |key| && StripDashes(key) == key[dashes..]
    ensures (forall i :: 0 <= i < dashes ==> key[i] == '-') && (dashes < |key| ==> key[dashes] != '-')
  {
    if key != [] && key[0] == '-' {
      var rest := StripExact(key[1..]);
      dashes := rest + 1;
      assert key[1..][rest..] == key[dashes..];
      forall i | 0 <= i < dashes ensures key[i] == '-' {
        assert i > 0 ==> key[1..][i - 1] == '-';
      }
    } else {
      dashes := 0;
      assert key[0..] == key;
    }
  }

  lemma {:induction false} HyphenateExact(s: string)
    ensures |Hyphenate(s)| == |s|
    ensures forall i :: 0 <= i < |s| ==> Hyphenate(s)[i] == if s[i] == '_' then '-' else s[i]
  {
    if s != [] {
      HyphenateExact(s[1..]);
    }
  }

  lemma {:induction false} BeforeExact(s: string, stop: char)
    ensures Before(s, stop) <= s && stop !in Before(s, stop)
    ensures |Before(s, stop)| < |s| ==> s[|Before(s, stop)|] == stop
  {
    if s != [] && s[0] != stop {
      BeforeExact(s[1..], stop);
      assert s == [s[0]] + s[1..];
    }
  }

  /** Normalising finds the name an argument sets, and there is only one. */
  lemma NormalizeExact(key: string)
    ensures Names(key, Normalize(key))
    ensures forall name :: Names(key, name) ==> name == Normalize(key)
  {
    var dashes := StripExact(key);
    var stripped := StripDashes(key);
    var hyphenated := Hyphenate(stripped);
    HyphenateExact(stripped);
    BeforeExact(hyphenated, '=');
    BeforeExact(Before(hyphenated, '='), '.');
    var n := Normalize(key);
    assert n <= Before(hyphenated, '=') <= hyphenated;
    forall i | 0 <= i < |n| ensures n[i] == Dashed(key[dashes + i]) && !Ends(key, dashes + i) {
      assert n[i] == hyphenated[i] && stripped[i] == key[dashes + i];
      assert n[i] in n && n[i] == Before(hyphenated, '=')[i] && n[i] in Before(hyphenated, '=');
    }
    forall p: nat | dashes <= p < dashes + |n| ensures !Ends(key, p) {
      assert !Ends(key, dashes + (p - dashes));
    }
    if dashes + |n| < |key| {
      assert stripped[|n|] == key[dashes + |n|];
    }
    assert NamesAfter(key, dashes, n);
    forall name | Names(key, name) ensures name == n {
      var other: nat :| NamesAfter(key, other, name);
      OneName(key, dashes, n, other, name);
    }
  }

  lemma OneName(key: string, a: nat, m: string, b: nat, n: string)
    requires NamesAfter(key, a, m) && NamesAfter(key, b, n)
    ensures m == n
  {
    assert a == b;
    assert |m| == |n|;
  }

  // ------------------------------------------------------------------ devices and machines

  /** Every device named, by decode or prefill groups, is named once, and exists. */
  ghost predicate OwnDevices(plan: CandidatePlan, hardware: Snapshot) {
    && Distinct(PlanIds(plan))
    && forall i :: i in PlanIds(plan) ==> exists g :: g in hardware.gpus && g.index == i
  }

  /** As many groups as replicas, each of exactly the devices its parallelism needs. */
  predicate GroupsFit(plan: CandidatePlan) {
    && |plan.groups| == plan.replicas && plan.replicas >= 1
    && forall g :: g in plan.groups ==> |g| >= 1 && |g| == plan.tp * plan.pp * (if plan.dpAttention then 1 else plan.dp)
  }

  /** Separate prefill needs SGLang and one plain decode group, and groups of its own size. */
  predicate PrefillFits(plan: CandidatePlan) {
    plan.prefill.Some? ==>
      && plan.engine == "sglang" && plan.replicas == 1 && plan.dp == 1 && !plan.dpAttention
      && forall g :: g in plan.prefill.value.groups ==> |g| == plan.prefill.value.tp * plan.prefill.value.pp
  }

  predicate AtLeastOne(limit: Option<int>) {
    limit.None? || limit.value > 0
  }

  /** The contract is kept: context, objective, a proper fraction, positive limits, and no argument of the controller's. */
  ghost predicate ContractKept(plan: CandidatePlan, contract: Contract) {
    && plan.context >= contract.maxContext
    && (plan.objective.None? || plan.objective == Some(contract.objective))
    && (plan.memoryFraction.None? || (plan.memoryFraction.value > 0.0 && plan.memoryFraction.value < 1.0))
    && AtLeastOne(plan.maxConcurrency) && AtLeastOne(plan.maxNumSeqs) && AtLeastOne(plan.maxRunning) && AtLeastOne(plan.chunkedPrefill)
    && forall a, name :: a in plan.arguments && Names(a, name) ==> name !in OWNED
  }

  /** Entry `k` is the first for device `i`. */
  ghost predicate FirstEntry(gpus: seq<Gpu>, i: int, k: nat) {
    k < |gpus| && gpus[k].index == i && forall j :: 0 <= j < k ==> gpus[j].index != i
  }

  /** The machine a device is on, as far as a plan names machines: that of its first entry, or "local". */
  ghost predicate OnNode(gpus: seq<Gpu>, i: int, named: string) {
    exists k: nat :: FirstEntry(gpus, i, k) && NodeText(gpus[k].nodeId, named)
  }

  predicate NodeText(node: Option<string>, named: string) {
    if node.None? || node.value == "" then named == "local" else named == node.value
  }

  lemma {:induction false} NodeLabelExact(gpus: seq<Gpu>, i: int, k: nat, named: string)
    requires FirstEntry(gpus, i, k)
    ensures named == NodeLabel(gpus, i) <==> NodeText(gpus[k].nodeId, named)
    decreases |gpus|
  {
    if k > 0 {
      assert gpus[1..][k - 1] == gpus[k];
      assert forall j :: 0 <= j < k - 1 ==> gpus[1..][j] == gpus[j + 1];
      NodeLabelExact(gpus[1..], i, k - 1, named);
    }
  }

  lemma OneNode(gpus: seq<Gpu>, i: int, named: string)
    requires exists g :: g in gpus && g.index == i
    ensures OnNode(gpus, i, named) <==> named == NodeLabel(gpus, i)
  {
    var k := Earliest(gpus, i);
    NodeLabelExact(gpus, i, k, named);
    forall m: nat | FirstEntry(gpus, i, m) ensures m == k {
      assert m < k || m == k || k < m;
    }
    hide NodeLabel, NodeText;
  }

  lemma {:induction false} Earliest(gpus: seq<Gpu>, i: int) returns (k: nat)
    requires exists g :: g in gpus && g.index == i
    ensures FirstEntry(gpus, i, k)
    decreases |gpus|
  {
    if gpus[0].index == i {
      k := 0;
    } else {
      assert gpus == [gpus[0]] + gpus[1..];
      var m := Earliest(gpus[1..], i);
      k := m + 1;
      assert gpus[1..][m] == gpus[k];
      assert forall j :: 1 <= j < k ==> gpus[j] == gpus[1..][j - 1];
    }
  }

  /** If the plan names machines, they are those of its devices; and if a replica spans machines, it names a backend. */
  ghost predicate MachinesKept(plan: CandidatePlan, hardware: Snapshot) {
    && (plan.replicaNodes.Some? ==>
          && |plan.replicaNodes.value| == |plan.groups|
          && forall k :: 0 <= k < |plan.groups| ==> LabelledAs(hardware, plan.groups[k], plan.replicaNodes.value[k]))
    && (plan.backend.None? || plan.backend.value == "" ==> forall k :: 0 <= k < |plan.groups| ==> OnOne(hardware, plan.groups[k]))
  }

  ghost predicate LabelledAs(hardware: Snapshot, group: seq<int>, labels: seq<string>) {
    |labels| == |group| && forall j :: 0 <= j < |group| ==> OnNode(hardware.gpus, group[j], labels[j])
  }

  ghost predicate OnOne(hardware: Snapshot, group: seq<int>) {
    forall i, j, a, b :: 0 <= i < |group| && 0 <= j < |group| && OnNode(hardware.gpus, group[i], a) && OnNode(hardware.gpus, group[j], b) ==> a == b
  }

  // ------------------------------------------------------------------ the verdict

  ghost predicate Acceptable(plan: CandidatePlan, contract: Contract) {
    && plan.engine in contract.engines
    && GroupsFit(plan) && PrefillFits(plan) && OwnDevices(plan, contract.hardware)
    && ContractKept(plan, contract)
    && MachinesKept(plan, contract.hardware)
    && contract.supports(plan.engine, plan)
  }

  lemma GroupsExact(plan: CandidatePlan, hardware: Snapshot)
    ensures CheckGroups(plan, hardware).None? <==> GroupsFit(plan) && PrefillFits(plan) && OwnDevices(plan, hardware)
  {
    var ids := PlanIds(plan);
    assert HasDuplicates(ids) <==> !Distinct(ids);
    assert (exists i | i in ids :: forall g | g in hardware.gpus :: g.index != i) <==>
           !forall i :: i in ids ==> exists g :: g in hardware.gpus && g.index == i;
    if GroupsFit(plan) {
      FirstDevice(plan);
    }
    hide PlanIds, HasDuplicates, Distinct;
  }

  lemma FirstDevice(plan: CandidatePlan)
    requires plan.groups != [] && forall g :: g in plan.groups ==> |g| >= 1
    ensures PlanIds(plan) != []
  {
    var all := plan.groups + (if plan.prefill.Some? then plan.prefill.value.groups else []);
    assert all[0] == plan.groups[0] && plan.groups[0] in plan.groups;
  }

  lemma LimitsExact(plan: CandidatePlan, contract: Contract)
    ensures CheckLimits(plan, contract).None? <==> ContractKept(plan, contract)
  {
    forall a: string ensures Owned(a) <==> exists name :: Names(a, name) && name in OWNED {
      NormalizeExact(a);
    }
    hide Owned, Names, OWNED;
  }

  lemma NodesExact(plan: CandidatePlan, hardware: Snapshot)
    requires forall k, i :: 0 <= k < |plan.groups| && i in plan.groups[k] ==> exists g :: g in hardware.gpus && g.index == i
    ensures CheckNodes(plan, hardware).None? <==> MachinesKept(plan, hardware)
  {
    var actual := Labels(hardware.gpus, plan.groups);
    forall k | 0 <= k < |plan.groups|
      ensures forall labels :: LabelledAs(hardware, plan.groups[k], labels) <==> labels == actual[k]
      ensures OnOne(hardware, plan.groups[k]) <==> !SpansMachines(actual[k])
    {
      GroupLabelsExact(hardware, plan.groups[k]);
    }
    hide LabelledAs, OnOne, SpansMachines, Labels;
    assert (exists labels | labels in actual :: SpansMachines(labels)) <==>
           exists k :: 0 <= k < |plan.groups| && SpansMachines(actual[k]);
    if plan.replicaNodes.Some? && |plan.replicaNodes.value| == |plan.groups| {
      assert plan.replicaNodes.value == actual <==> forall k :: 0 <= k < |plan.groups| ==> plan.replicaNodes.value[k] == actual[k];
    }
  }

  lemma GroupLabelsExact(hardware: Snapshot, group: seq<int>)
    requires forall i :: i in group ==> exists g :: g in hardware.gpus && g.index == i
    ensures forall labels :: LabelledAs(hardware, group, labels) <==> labels == GroupLabels(hardware.gpus, group)
    ensures OnOne(hardware, group) <==> !SpansMachines(GroupLabels(hardware.gpus, group))
  {
    var actual := GroupLabels(hardware.gpus, group);
    forall j, named | 0 <= j < |group| ensures OnNode(hardware.gpus, group[j], named) <==> named == actual[j] {
      assert group[j] in group;
      OneNode(hardware.gpus, group[j], named);
    }
    hide OnNode, NodeLabel;
    if !SpansMachines(actual) {
      assert forall i, j :: 0 <= i < |actual| && 0 <= j < |actual| ==> actual[i] == actual[j];
    } else {
      var i, j :| 0 <= i < j < |actual| && actual[i] != actual[j];
      assert OnNode(hardware.gpus, group[i], actual[i]) && OnNode(hardware.gpus, group[j], actual[j]);
    }
  }

  /** A proposal passes the checks if and only if it is acceptable in every respect. */
  lemma AcceptedExactly(plan: CandidatePlan, contract: Contract)
    ensures Validate(plan, contract).None? <==> Acceptable(plan, contract)
  {
    GroupsExact(plan, contract.hardware);
    LimitsExact(plan, contract);
    if OwnDevices(plan, contract.hardware) {
      DevicesNamed(plan);
      forall k, i | 0 <= k < |plan.groups| && i in plan.groups[k] ensures exists g :: g in contract.hardware.gpus && g.index == i {
        assert i in PlanIds(plan);
      }
      NodesExact(plan, contract.hardware);
    }
    hide CheckGroups, CheckLimits, CheckNodes, GroupsFit, PrefillFits, OwnDevices, ContractKept, MachinesKept;
  }

  lemma DevicesNamed(plan: CandidatePlan)
    ensures forall k, i :: 0 <= k < |plan.groups| && i in plan.groups[k] ==> i in PlanIds(plan)
  {
    var all := plan.groups + (if plan.prefill.Some? then plan.prefill.value.groups else []);
    forall k, i | 0 <= k < |plan.groups| && i in plan.groups[k] ensures i in PlanIds(plan) {
      assert all[k] == plan.groups[k];
      Flattened(all, k, i);
    }
  }

  lemma {:induction false} Flattened(groups: seq<seq<int>>, k: nat, i: int)
    requires k < |groups| && i in groups[k]
    ensures i in Flatten(groups)
  {
    if k > 0 {
      Flattened(groups[1..], k - 1, i);
    }
  }

  /** What is wrong with a plan turned down for a reason. */
  ghost predicate Wrong(reason: Rejection, plan: CandidatePlan, contract: Contract) {
    match reason
    case EngineNotPrepared => plan.engine !in contract.engines
    case GroupsMissing => |plan.groups| == 0 || |plan.groups| != plan.replicas
    case GpuShared => !Distinct(PlanIds(plan)) || |PlanIds(plan)| == 0 || exists g :: g in plan.groups && |g| == 0
    case GpuUnknown => exists i :: i in PlanIds(plan) && forall g :: g in contract.hardware.gpus ==> g.index != i
    case GroupSize => exists g :: g in plan.groups && |g| != plan.tp * plan.pp * (if plan.dpAttention then 1 else plan.dp)
    case PrefillUnsupported =>
      plan.prefill.Some? && (plan.engine != "sglang" || plan.replicas != 1 || plan.dp != 1 || plan.dpAttention)
    case PrefillGroupSize =>
      plan.prefill.Some? && exists g :: g in plan.prefill.value.groups && |g| != plan.prefill.value.tp * plan.prefill.value.pp
    case ContextReduced => plan.context < contract.maxContext
    case ObjectiveChanged => plan.objective.Some? && plan.objective.value != contract.objective
    case FractionOutOfRange => plan.memoryFraction.Some? && (plan.memoryFraction.value <= 0.0 || plan.memoryFraction.value >= 1.0)
    case LimitNotPositive =>
      !AtLeastOne(plan.maxConcurrency) || !AtLeastOne(plan.maxNumSeqs) || !AtLeastOne(plan.maxRunning) || !AtLeastOne(plan.chunkedPrefill)
    case ArgumentOwned => exists a, name :: a in plan.arguments && Names(a, name) && name in OWNED
    case NodesMismatch => plan.replicaNodes.Some? && !MachinesKept(plan.(backend := Some("any")), contract.hardware)
    case BackendMissing => (plan.backend.None? || plan.backend.value == "") && !MachinesKept(plan.(replicaNodes := None), contract.hardware)
    case EngineRefuses => !contract.supports(plan.engine, plan)
  }

  /** A proposal is turned down only for something that is wrong with it. */
  lemma RejectedTruly(plan: CandidatePlan, contract: Contract)
    requires Validate(plan, contract).Some?
    ensures Wrong(Validate(plan, contract).value, plan, contract)
  {
    hide CheckGroups, CheckLimits, CheckNodes;
    EndsWrong(plan, contract);
    if CheckGroups(plan, contract.hardware).Some? {
      GroupsWrong(plan, contract);
    } else if CheckLimits(plan, contract).Some? {
      LimitsWrong(plan, contract);
    } else if CheckNodes(plan, contract.hardware).Some? {
      GroupsExact(plan, contract.hardware);
      NodesWrong(plan, contract);
    }
    hide Wrong;
  }

  lemma EndsWrong(plan: CandidatePlan, contract: Contract)
    ensures plan.engine !in contract.engines ==> Wrong(EngineNotPrepared, plan, contract)
    ensures !contract.supports(plan.engine, plan) ==> Wrong(EngineRefuses, plan, contract)
  {
  }

  lemma GroupsWrong(plan: CandidatePlan, contract: Contract)
    requires CheckGroups(plan, contract.hardware).Some?
    ensures Wrong(CheckGroups(plan, contract.hardware).value, plan, contract)
  {
    hide PlanIds, MachinesKept, Names;
  }

  lemma LimitsWrong(plan: CandidatePlan, contract: Contract)
    requires CheckLimits(plan, contract).Some?
    ensures Wrong(CheckLimits(plan, contract).value, plan, contract)
  {
    forall a: string ensures Owned(a) <==> exists name :: Names(a, name) && name in OWNED {
      NormalizeExact(a);
    }
    hide Owned, Names, OWNED, MachinesKept, PlanIds;
  }

  lemma NodesWrong(plan: CandidatePlan, contract: Contract)
    requires OwnDevices(plan, contract.hardware) && CheckNodes(plan, contract.hardware).Some?
    ensures Wrong(CheckNodes(plan, contract.hardware).value, plan, contract)
  {
    DevicesNamed(plan);
    var named, silent := plan.(backend := Some("any")), plan.(replicaNodes := None);
    forall k, i | 0 <= k < |plan.groups| && i in plan.groups[k] ensures exists g :: g in contract.hardware.gpus && g.index == i {
      assert i in PlanIds(plan);
    }
    NodesExact(named, contract.hardware);
    NodesExact(silent, contract.hardware);
    hide MachinesKept, Labels, PlanIds, Names, SpansMachines;
  }
}

/** Deterministic, fail-closed judgement of one experiment's measurements. */
module Verifier {
  import opened Common
  import opened Schemas

  /** What the host platform computes for a square root, used by the balanced objective; nothing is assumed of it. */
  type Root = real -> real

  const TPS_FLOOR := 0.000000001

  function RMax(a: real, b: real): real {
    if a >= b then a else b
  }

  // ------------------------------------------------------------------ one measurement

  predicate MetricsSound(r: Benchmark) {
    && r.finite && r.duration > 0.0 && r.tps > 0.0 && r.latencyP95 > 0.0
    && (r.ttftP95.Some? ==> r.ttftP95.value > 0.0)
    && (r.tpotP95.Some? ==> r.tpotP95.value > 0.0)
  }

  /** Everything that disqualifies a measurement as evidence. */
  function Invalid(def: Definition, r: Benchmark): seq<Reason> {
    (if r.seed != def.policy.seed then [SeedChanged] else [])
    + (if r.numRequests != Max(def.policy.requestsPerTrial, r.concurrency * 2) then [SampleCountChanged] else [])
    + (if r.streaming != def.streaming then [StreamingChanged] else [])
    + (if r.totalRequests != r.numRequests || r.successfulRequests != r.totalRequests then [RequestsMissing] else [])
    + (if r.failedRequests != 0 || r.errorRate != 0.0 then [RequestsFailed] else [])
    + (if !MetricsSound(r) then [MetricsInvalid] else [])
  }

  function SloViolations(r: Benchmark, slo: Option<LatencyConstraints>): seq<Reason> {
    if slo.None? || slo.value.IsEmpty() then []
    else
      (match slo.value.maxTtft
       case None => []
       case Some(bound) =>
         if r.ttftP95.None? then [TtftUnavailable] else if r.ttftP95.value > bound then [TtftExceeded] else [])
      + (if slo.value.maxLatency.Some? && r.latencyP95 > slo.value.maxLatency.value then [LatencyExceeded] else [])
      + (match slo.value.maxTpot
         case None => []
         case Some(bound) =>
           if r.tpotP95.None? then [TpotUnavailable] else if r.tpotP95.value > bound then [TpotExceeded] else [])
  }

  function Utility(def: Definition, root: Root, r: Benchmark, baseline: Option<Benchmark>): real {
    if def.objective.Throughput? then r.tps
    else if r.ttftP95.None? || r.ttftP95.value <= 0.0 then 0.0
    else if def.objective.Latency? then 1.0 / r.ttftP95.value
    else
      var baseTps := if baseline.Some? then baseline.value.tps else 1.0;
      var baseLatency := if baseline.Some? then baseline.value.ttftP95 else Some(1.0);
      var latency := if baseLatency.None? || baseLatency.value == 0.0 then 1.0 else baseLatency.value;
      root(Relative(r.tps, RMax(baseTps, TPS_FLOOR), latency, r.ttftP95.value))
  }

  /** Throughput and latency as multiples of the baseline's, multiplied. */
  function Relative(tps: real, baseTps: real, baseLatency: real, latency: real): real
    requires baseTps > 0.0 && latency > 0.0
  {
    (tps / baseTps) * (baseLatency / latency)
  }

  /** What keeps a measurement's load level from being a capacity point. */
  function Violations(def: Definition, root: Root, r: Benchmark, baseline: Option<Benchmark>): seq<Reason> {
    SloViolations(r, def.slo)
    + (if def.policy.minimumTps.Some? && r.tps < def.policy.minimumTps.value then [BelowFloor] else [])
    + (if Utility(def, root, r, baseline) <= 0.0 then [ObjectiveUnavailable] else [])
  }

  // ------------------------------------------------------------------ the judgement, free of any order

  /** Correctness evidence: passed, for the fixed suite, with every case in every required mode. */
  ghost predicate CorrectnessCovered(def: Definition, correctness: Option<CorrectnessResult>) {
    && correctness.Some? && correctness.value.Passed() && correctness.value.suite == def.suite.fingerprint
    && (forall name :: name in def.suite.cases ==> Observed(correctness.value, name, false))
    && (def.suite.verifyStreaming ==> forall name :: name in def.suite.cases ==> Observed(correctness.value, name, true))
  }

  predicate Observed(correctness: CorrectnessResult, name: string, streaming: bool) {
    exists o :: o in correctness.observations && o.name == name && o.passed && o.streaming == streaming
  }

  /** The measurements taken at one load level. */
  function At(results: seq<Benchmark>, c: int): seq<Benchmark> {
    if results == [] then []
    else (if results[0].concurrency == c then [results[0]] else []) + At(results[1..], c)
  }

  ghost predicate ValidUpTo(def: Definition, results: seq<Benchmark>, n: nat)
    requires n <= |results|
  {
    forall k :: 0 <= k < n ==> Invalid(def, results[k]) == []
  }

  lemma ValidNext(def: Definition, results: seq<Benchmark>, n: nat)
    requires n < |results|
    ensures ValidUpTo(def, results, n + 1) <==> ValidUpTo(def, results, n) && Invalid(def, results[n]) == []
  {
    hide Invalid;
  }

  /** Measurement evidence: all valid, at exactly the fixed levels, each confirmed the required number of times. */
  ghost predicate FullyMeasured(def: Definition, results: seq<Benchmark>) {
    && ValidUpTo(def, results, |results|)
    && (forall c :: At(results, c) != [] <==> c in def.policy.levels)
    && (forall c :: c in def.policy.levels ==> |At(results, c)| == def.policy.repetitions)
  }

  /** A measured load level whose every trial meets the SLO and the floor and has positive utility. */
  ghost predicate CapacityPoint(def: Definition, root: Root, baseline: Option<Benchmark>, results: seq<Benchmark>, c: int) {
    && At(results, c) != []
    && forall r :: r in At(results, c) ==> Violations(def, root, r, baseline) == []
  }

  /** `u` is the utility of the worst trial at level `c`. */
  ghost predicate WorstTrial(def: Definition, root: Root, baseline: Option<Benchmark>, results: seq<Benchmark>, c: int, u: real) {
    && (exists r :: r in At(results, c) && Utility(def, root, r, baseline) == u)
    && (forall r :: r in At(results, c) ==> u <= Utility(def, root, r, baseline))
  }

  /** The recommended level: no capacity point has a better worst trial, nor an equal one at a lower level. */
  ghost predicate Recommended(
      def: Definition, root: Root, baseline: Option<Benchmark>, results: seq<Benchmark>, c: int, score: real)
  {
    && CapacityPoint(def, root, baseline, results, c) && WorstTrial(def, root, baseline, results, c, score)
    && forall d, u :: CapacityPoint(def, root, baseline, results, d) && WorstTrial(def, root, baseline, results, d, u)
         ==> u < score || (u == score && c <= d)
  }

  ghost predicate Qualifies(
      def: Definition, root: Root, correctness: Option<CorrectnessResult>, results: seq<Benchmark>, baseline: Option<Benchmark>)
  {
    && CorrectnessCovered(def, correctness)
    && FullyMeasured(def, results)
    && exists c :: CapacityPoint(def, root, baseline, results, c)
  }

  /** Fractional gain over the incumbent's score, when that score exists and is positive. */
  function Improvement(score: real, previous: Option<real>): Option<real> {
    if previous.Some? && previous.value > 0.0 then Some(score / previous.value - 1.0) else None
  }

  function PreviousScore(incumbent: Option<Decision>): Option<real> {
    if incumbent.Some? then incumbent.value.score else None
  }

  /** The decision the contract calls for, every field but the wording of the reasons. */
  ghost predicate Judged(
      def: Definition, root: Root, correctness: Option<CorrectnessResult>, results: seq<Benchmark>,
      incumbent: Option<Decision>, baseline: Option<Benchmark>, d: Decision)
  {
    && (d.eligible <==> Qualifies(def, root, correctness, results, baseline))
    && (!d.eligible ==> d == Ineligible(d.reasons) && d.reasons != [])
    && (d.eligible ==>
          && d.score.Some? && d.recommended.Some? && d.maximum.Some?
          && Recommended(def, root, baseline, results, d.recommended.value, d.score.value)
          && CapacityPoint(def, root, baseline, results, d.maximum.value)
          && (forall c :: CapacityPoint(def, root, baseline, results, c) ==> c <= d.maximum.value)
          && d.improvement == Improvement(d.score.value, PreviousScore(incumbent))
          && d.accepted == (incumbent.None? || (d.improvement.Some? && d.improvement.value >= def.policy.minimumImprovement)))
  }

  /** Two decisions on the same evidence differ at most in how they word their reasons. */
  lemma JudgementUnique(
      def: Definition, root: Root, correctness: Option<CorrectnessResult>, results: seq<Benchmark>,
      incumbent: Option<Decision>, baseline: Option<Benchmark>, d: Decision, e: Decision)
    requires Judged(def, root, correctness, results, incumbent, baseline, d)
    requires Judged(def, root, correctness, results, incumbent, baseline, e)
    ensures d == e.(reasons := d.reasons)
  {
  }

  // ------------------------------------------------------------------ independence of order

  lemma {:induction false} AtCounts(results: seq<Benchmark>, c: int, r: Benchmark)
    ensures multiset(At(results, c))[r] == if r.concurrency == c then multiset(results)[r] else 0
  {
    if results != [] {
      AtCounts(results[1..], c, r);
      assert results == [results[0]] + results[1..];
    }
  }

  lemma AtPermuted(a: seq<Benchmark>, b: seq<Benchmark>, c: int)
    requires multiset(a) == multiset(b)
    ensures SameMembers(At(a, c), At(b, c))
  {
    forall r: Benchmark ensures multiset(At(a, c))[r] == multiset(At(b, c))[r] {
      AtCounts(a, c, r);
      AtCounts(b, c, r);
    }
    assert multiset(At(a, c)) == multiset(At(b, c));
    PermutedMembers(At(a, c), At(b, c));
  }

  lemma PermutedMembers(a: seq<Benchmark>, b: seq<Benchmark>)
    requires multiset(a) == multiset(b)
    ensures SameMembers(a, b)
  {
    assert |multiset(a)| == |a| && |multiset(b)| == |b|;
    forall r ensures r in a <==> r in b {
      assert r in a <==> r in multiset(a);
      assert r in b <==> r in multiset(b);
    }
  }

  ghost predicate SameMembers(a: seq<Benchmark>, b: seq<Benchmark>) {
    |a| == |b| && forall r :: r in a <==> r in b
  }

  /** Reporting the same measurements in another order changes no judgement. */
  lemma JudgementOrderFree(
      def: Definition, root: Root, correctness: Option<CorrectnessResult>, a: seq<Benchmark>, b: seq<Benchmark>,
      incumbent: Option<Decision>, baseline: Option<Benchmark>, d: Decision)
    requires multiset(a) == multiset(b)
    requires Judged(def, root, correctness, a, incumbent, baseline, d)
    ensures Judged(def, root, correctness, b, incumbent, baseline, d)
  {
    hide Invalid, Violations, Utility, At;
    assert SameMembers(a, b) by {
      PermutedMembers(a, b);
    }
    assert forall k :: 0 <= k < |a| ==> a[k] in b;
    assert forall k :: 0 <= k < |b| ==> b[k] in a;
    forall c ensures SameMembers(At(a, c), At(b, c)) {
      AtPermuted(a, b, c);
    }
    assert FullyMeasured(def, a) <==> FullyMeasured(def, b);
    forall c ensures CapacityPoint(def, root, baseline, a, c) <==> CapacityPoint(def, root, baseline, b, c) {
      assert SameMembers(At(a, c), At(b, c));
    }
    forall c, u ensures WorstTrial(def, root, baseline, a, c, u) <==> WorstTrial(def, root, baseline, b, c, u) {
      assert SameMembers(At(a, c), At(b, c));
    }
  }

  // ------------------------------------------------------------------ why a decision is what it is

  /** What is wrong with the evidence as a whole. */
  ghost predicate EvidenceReason(def: Definition, correctness: Option<CorrectnessResult>, results: seq<Benchmark>, x: Reason) {
    match x
    case CorrectnessFailed => !SuitePassed(def, correctness)
    case CasesMissing => SuitePassed(def, correctness) && !CorrectnessCovered(def, correctness)
    case LevelsNotCovered => OtherLevels(def, results)
    case RepetitionsMissing => OtherRepetitions(def, results)
    case _ => exists k :: 0 <= k < |results| && x in Invalid(def, results[k])
  }

  /** Some fixed level was not measured, or some other one was. */
  ghost predicate OtherLevels(def: Definition, results: seq<Benchmark>) {
    exists c :: (At(results, c) != []) != (c in def.policy.levels)
  }

  ghost predicate OtherRepetitions(def: Definition, results: seq<Benchmark>) {
    exists c :: At(results, c) != [] && |At(results, c)| != def.policy.repetitions
  }

  predicate SuitePassed(def: Definition, correctness: Option<CorrectnessResult>) {
    correctness.Some? && correctness.value.Passed() && correctness.value.suite == def.suite.fingerprint
  }

  /** What keeps a level from being a capacity point: a violation by one of its trials. */
  ghost predicate LevelReason(def: Definition, root: Root, baseline: Option<Benchmark>, results: seq<Benchmark>, x: Reason) {
    x.AtLevel? && exists r :: r in At(results, x.concurrency) && x.reason in Violations(def, root, r, baseline)
  }

  /** A decision states exactly the reasons there are, and none twice over. */
  ghost predicate Explained(
      def: Definition, root: Root, correctness: Option<CorrectnessResult>, results: seq<Benchmark>,
      baseline: Option<Benchmark>, d: Decision)
  {
    if !CorrectnessCovered(def, correctness) || !FullyMeasured(def, results) then
      && Distinct(d.reasons)
      && forall x :: x in d.reasons <==> EvidenceReason(def, correctness, results, x)
    else
      forall x :: x in d.reasons <==>
        || LevelReason(def, root, baseline, results, x)
        || (x.NotAnImprovement? && d.eligible && !d.accepted)
        || (x.NoCapacityPoint? && !d.eligible && forall y :: !LevelReason(def, root, baseline, results, y))
  }

  // ------------------------------------------------------------------ computing the judgement

  /** First occurrences, in order. */
  function Dedupe(s: seq<Reason>): (r: seq<Reason>)
    ensures r == [] <==> s == []
    ensures Distinct(r) && forall x :: x in r <==> x in s
  {
    if s == [] then []
    else
      var earlier := Dedupe(s[..|s| - 1]);
      if s[|s| - 1] in earlier then earlier else earlier + [s[|s| - 1]]
  }

  class DeterministicVerifier {
    const definition: Definition
    const root: Root

    constructor (definition: Definition, root: Root)
      ensures this.definition == definition && this.root == root
    {
      this.definition := definition;
      this.root := root;
    }

    /** Correctness reasons: at most one. */
    method CheckCorrectness(correctness: Option<CorrectnessResult>) returns (reasons: seq<Reason>)
      ensures reasons == [] <==> CorrectnessCovered(definition, correctness)
      ensures reasons != [] ==> reasons == [if SuitePassed(definition, correctness) then CasesMissing else CorrectnessFailed]
    {
      var suite := definition.suite;
      if correctness.None? || !correctness.value.Passed() || correctness.value.suite != suite.fingerprint {
        return [CorrectnessFailed];
      }
      var complete := true;
      for i := 0 to |suite.cases|
        invariant complete <==> forall k :: 0 <= k < i ==>
          && Observed(correctness.value, suite.cases[k], false)
          && (suite.verifyStreaming ==> Observed(correctness.value, suite.cases[k], true))
      {
        if !Observed(correctness.value, suite.cases[i], false)
           || (suite.verifyStreaming && !Observed(correctness.value, suite.cases[i], true))
        {
          complete := false;
        }
      }
      reasons := if complete then [] else [CasesMissing];
    }

    /** Group measurements by load level. */
    method Group(results: seq<Benchmark>) returns (levels: seq<int>, groups: map<int, seq<Benchmark>>)
      ensures Grouped(results, levels, groups)
    {
      levels, groups := [], map[];
      assert GroupedUpTo(results, 0, levels, groups);
      hide *;
      for i := 0 to |results|
        invariant GroupedUpTo(results, i, levels, groups)
      {
        GroupedNext(results, i, levels, groups);
        var filed := File(levels, groups, results[i]);
        levels, groups := filed.0, filed.1;
      }
      GroupedAll(results, levels, groups);
    }

    /** Everything that is wrong with any measurement. */
    method CollectInvalid(results: seq<Benchmark>) returns (reasons: seq<Reason>)
      ensures reasons == [] <==> ValidUpTo(definition, results, |results|)
      ensures forall x :: x in reasons <==> exists k :: 0 <= k < |results| && x in Invalid(definition, results[k])
    {
      hide Invalid;
      reasons := [];
      for i := 0 to |results|
        invariant reasons == [] <==> ValidUpTo(definition, results, i)
        invariant forall x :: x in reasons <==> exists k :: 0 <= k < i && x in Invalid(definition, results[k])
      {
        ValidNext(definition, results, i);
        reasons := reasons + Invalid(definition, results[i]);
      }
    }

    /** Violations at one level and, for what it is worth, the utility of its worst trial. */
    method Examine(group: seq<Benchmark>, baseline: Option<Benchmark>) returns (violations: seq<Reason>, worst: real)
      requires group != []
      ensures violations == [] <==> forall r :: r in group ==> Violations(definition, root, r, baseline) == []
      ensures forall x :: x in violations <==> exists r :: r in group && x in Violations(definition, root, r, baseline)
      ensures exists r :: r in group && Utility(definition, root, r, baseline) == worst
      ensures forall r :: r in group ==> worst <= Utility(definition, root, r, baseline)
    {
      violations := [];
      worst := Utility(definition, root, group[0], baseline);
      hide Violations, Utility, Found;
      FoundNone(definition, root, baseline, group);
      for i := 0 to |group|
        invariant Found(definition, root, baseline, group, i, violations)
        invariant exists r :: r in group && Utility(definition, root, r, baseline) == worst
        invariant worst <= Utility(definition, root, group[0], baseline)
        invariant forall k :: 0 <= k < i ==> worst <= Utility(definition, root, group[k], baseline)
      {
        FoundNext(definition, root, baseline, group, i, violations);
        violations := violations + Violations(definition, root, group[i], baseline);
        var utility := Utility(definition, root, group[i], baseline);
        if utility < worst {
          worst := utility;
        }
      }
      FoundAll(definition, root, baseline, group, violations);
    }

    /** The decision on one experiment, given the incumbent's decision and the baseline measurement. */
    method Decide(
        correctness: Option<CorrectnessResult>, results: seq<Benchmark>,
        incumbent: Option<Decision>, baseline: Option<Benchmark>) returns (d: Decision)
      ensures Judged(definition, root, correctness, results, incumbent, baseline, d)
      ensures Explained(definition, root, correctness, results, baseline, d)
    {
      hide CorrectnessCovered, CapacityPoint, WorstTrial, Invalid, Recommended, At, Grouped, FullyMeasured, Explained;
      hide EvidenceReason, SuitePassed;
      var policy := definition.policy;
      var reasons := CheckCorrectness(correctness);
      var levels, groups := Group(results);
      var invalid := CollectInvalid(results);
      reasons := reasons + invalid;
      if groups.Keys != set c | c in policy.levels {
        reasons := reasons + [LevelsNotCovered];
      }
      if exists c | c in groups :: |groups[c]| != policy.repetitions {
        reasons := reasons + [RepetitionsMissing];
      }
      MeasuredIff(definition, results, levels, groups);
      EvidenceExplained(definition, correctness, results, levels, groups, invalid, reasons);
      if reasons != [] {
        d := Ineligible(Dedupe(reasons));
        IneligibleExplained(definition, root, correctness, results, baseline, d);
        return;
      }
      d := Rule(correctness, results, levels, groups, incumbent, baseline);
    }

    /** The decision once correctness and measurements are in order. */
    method Rule(
        ghost correctness: Option<CorrectnessResult>, results: seq<Benchmark>, levels: seq<int>,
        groups: map<int, seq<Benchmark>>, incumbent: Option<Decision>, baseline: Option<Benchmark>) returns (d: Decision)
      requires Grouped(results, levels, groups)
      requires CorrectnessCovered(definition, correctness) && FullyMeasured(definition, results)
      ensures Judged(definition, root, correctness, results, incumbent, baseline, d)
      ensures Explained(definition, root, correctness, results, baseline, d)
    {
      hide CorrectnessCovered, CapacityPoint, WorstTrial, Invalid, Recommended, At, Grouped, FullyMeasured, LevelReason;
      var points, eligible, wrong := FindCapacity(results, levels, groups, baseline);
      if points == [] {
        if wrong == [] {
          return Ineligible([NoCapacityPoint]);
        }
        assert wrong[0] in wrong;
        return Ineligible(wrong);
      }
      var best, maximum := PickLevels(points, eligible);
      BestIsRecommended(definition, root, baseline, results, eligible, best);
      assert CapacityPoint(definition, root, baseline, results, best);
      var score := eligible[best];
      var improvement := Improvement(score, PreviousScore(incumbent));
      var accepted := incumbent.None? || (improvement.Some? && improvement.value >= definition.policy.minimumImprovement);
      if !accepted {
        wrong := wrong + [NotAnImprovement];
      }
      d := Decision(true, accepted, wrong, Some(score), improvement, Some(best), Some(maximum));
    }

    /** The levels that are capacity points, with the utility of their worst trial. */
    method FindCapacity(results: seq<Benchmark>, levels: seq<int>, groups: map<int, seq<Benchmark>>, baseline: Option<Benchmark>)
      returns (points: seq<int>, eligible: map<int, real>, reasons: seq<Reason>)
      requires Grouped(results, levels, groups)
      ensures forall c :: c in points <==> c in eligible
      ensures forall c :: c in eligible <==> CapacityPoint(definition, root, baseline, results, c)
      ensures forall c :: c in eligible ==> WorstTrial(definition, root, baseline, results, c, eligible[c])
      ensures forall x :: x in reasons <==> LevelReason(definition, root, baseline, results, x)
    {
      hide Violations, Utility, At;
      points, eligible, reasons := [], map[], [];
      hide LevelsExplained, LevelReason;
      NoLevels(definition, root, baseline, results);
      for i := 0 to |levels|
        invariant forall c :: c in points <==> c in eligible
        invariant forall c :: c in eligible ==> c in levels[..i]
        invariant forall k :: 0 <= k < i ==>
          (levels[k] in eligible <==> CapacityPoint(definition, root, baseline, results, levels[k]))
        invariant forall c :: c in eligible ==> WorstTrial(definition, root, baseline, results, c, eligible[c])
        invariant LevelsExplained(definition, root, baseline, results, levels[..i], reasons)
      {
        var c := levels[i];
        assert levels[..i + 1] == levels[..i] + [c];
        var violations, worst := Examine(groups[c], baseline);
        LevelsNext(definition, root, baseline, results, levels[..i], c, violations, reasons);
        if violations == [] {
          points, eligible := points + [c], eligible[c := worst];
        } else {
          reasons := reasons + Labelled(c, Dedupe(violations));
        }
      }
      assert levels[..|levels|] == levels;
      LevelsAll(definition, root, baseline, results, levels, groups, reasons);
      forall c ensures c in eligible <==> CapacityPoint(definition, root, baseline, results, c) {
        if c in levels {
          var k :| 0 <= k < |levels| && levels[k] == c;
        }
      }
    }

    /** Key of the largest value, the smallest such key among equals; and the largest key. */
    method PickLevels(points: seq<int>, eligible: map<int, real>) returns (best: int, maximum: int)
      requires points != [] && forall c :: c in points <==> c in eligible
      ensures best in eligible && maximum in eligible
      ensures forall c :: c in eligible ==> c <= maximum
      ensures forall c :: c in eligible ==> eligible[c] < eligible[best] || (eligible[c] == eligible[best] && best <= c)
    {
      best, maximum := points[0], points[0];
      for i := 1 to |points|
        invariant best in eligible && maximum in eligible
        invariant forall k :: 0 <= k < i ==> points[k] <= maximum
        invariant forall k :: 0 <= k < i ==>
          eligible[points[k]] < eligible[best] || (eligible[points[k]] == eligible[best] && best <= points[k])
      {
        var c := points[i];
        if eligible[c] > eligible[best] || (eligible[c] == eligible[best] && c < best) {
          best := c;
        }
        maximum := Max(maximum, c);
      }
    }
  }

  /** What the checks of the evidence found is all there is to find. */
  lemma EvidenceExplained(
      def: Definition, correctness: Option<CorrectnessResult>, results: seq<Benchmark>, levels: seq<int>,
      groups: map<int, seq<Benchmark>>, invalid: seq<Reason>, reasons: seq<Reason>)
    requires Grouped(results, levels, groups)
    requires forall x :: x in invalid <==> exists k :: 0 <= k < |results| && x in Invalid(def, results[k])
    requires reasons == (if CorrectnessCovered(def, correctness) then []
                         else [if SuitePassed(def, correctness) then CasesMissing else CorrectnessFailed])
                        + invalid
                        + (if groups.Keys != set c | c in def.policy.levels then [LevelsNotCovered] else [])
                        + (if exists c :: c in groups && |groups[c]| != def.policy.repetitions then [RepetitionsMissing] else [])
    ensures forall x :: x in reasons <==> EvidenceReason(def, correctness, results, x)
  {
    LevelsExplain(def, results, levels, groups);
    RepetitionsExplain(def, results, levels, groups);
    hide Grouped, OtherLevels, OtherRepetitions, Invalid, CorrectnessCovered, SuitePassed;
    var suite := if CorrectnessCovered(def, correctness) then []
                 else [if SuitePassed(def, correctness) then CasesMissing else CorrectnessFailed];
    var gaps := if groups.Keys != set c | c in def.policy.levels then [LevelsNotCovered] else [];
    var counts := if exists c :: c in groups && |groups[c]| != def.policy.repetitions then [RepetitionsMissing] else [];
    hide EvidenceReason;
    forall x ensures x in reasons <==> EvidenceReason(def, correctness, results, x) {
      InFour(suite, invalid, gaps, counts, x);
      OneReason(def, correctness, results, suite, invalid, gaps, counts, x);
    }
  }

  lemma OneReason(
      def: Definition, correctness: Option<CorrectnessResult>, results: seq<Benchmark>, suite: seq<Reason>,
      invalid: seq<Reason>, gaps: seq<Reason>, counts: seq<Reason>, x: Reason)
    requires suite == if CorrectnessCovered(def, correctness) then []
                      else [if SuitePassed(def, correctness) then CasesMissing else CorrectnessFailed]
    requires x in invalid <==> exists k :: 0 <= k < |results| && x in Invalid(def, results[k])
    requires gaps == if OtherLevels(def, results) then [LevelsNotCovered] else []
    requires counts == if OtherRepetitions(def, results) then [RepetitionsMissing] else []
    ensures x in suite || x in invalid || x in gaps || x in counts <==> EvidenceReason(def, correctness, results, x)
  {
    CoveredPasses(def, correctness);
    if x in invalid {
      InvalidKinds(def, results, x);
    }
    hide OtherLevels, OtherRepetitions, Invalid, CorrectnessCovered, SuitePassed;
  }

  lemma InFour(a: seq<Reason>, b: seq<Reason>, c: seq<Reason>, d: seq<Reason>, x: Reason)
    ensures x in a + b + c + d <==> x in a || x in b || x in c || x in d
  {
  }

  lemma LevelsExplain(def: Definition, results: seq<Benchmark>, levels: seq<int>, groups: map<int, seq<Benchmark>>)
    requires Grouped(results, levels, groups)
    ensures groups.Keys != (set c | c in def.policy.levels) <==> OtherLevels(def, results)
  {
    hide At;
    var wanted := set c | c in def.policy.levels;
    assert forall c :: c in groups.Keys <==> At(results, c) != [];
    assert forall c :: c in wanted <==> c in def.policy.levels;
    if !OtherLevels(def, results) {
      forall c ensures c in groups.Keys <==> c in wanted {
        assert (At(results, c) != []) == (c in def.policy.levels);
      }
    }
  }

  lemma RepetitionsExplain(def: Definition, results: seq<Benchmark>, levels: seq<int>, groups: map<int, seq<Benchmark>>)
    requires Grouped(results, levels, groups)
    ensures (exists c :: c in groups && |groups[c]| != def.policy.repetitions) <==> OtherRepetitions(def, results)
  {
    hide At;
    if OtherRepetitions(def, results) {
      var c :| At(results, c) != [] && |At(results, c)| != def.policy.repetitions;
      assert c in groups && |groups[c]| != def.policy.repetitions;
    }
  }

  lemma CoveredPasses(def: Definition, correctness: Option<CorrectnessResult>)
    ensures CorrectnessCovered(def, correctness) ==> SuitePassed(def, correctness)
  {
  }

  /** The reasons against single measurements are of their own kinds. */
  lemma InvalidKinds(def: Definition, results: seq<Benchmark>, x: Reason)
    requires exists k :: 0 <= k < |results| && x in Invalid(def, results[k])
    ensures !x.CorrectnessFailed? && !x.CasesMissing? && !x.LevelsNotCovered? && !x.RepetitionsMissing?
  {
  }

  lemma IneligibleExplained(
      def: Definition, root: Root, correctness: Option<CorrectnessResult>, results: seq<Benchmark>,
      baseline: Option<Benchmark>, d: Decision)
    requires !CorrectnessCovered(def, correctness) || !FullyMeasured(def, results)
    requires Distinct(d.reasons) && forall x :: x in d.reasons <==> EvidenceReason(def, correctness, results, x)
    ensures Explained(def, root, correctness, results, baseline, d)
  {
  }

  /** The violations found among the first `n` trials. */
  ghost predicate Found(
      def: Definition, root: Root, baseline: Option<Benchmark>, group: seq<Benchmark>, n: nat, violations: seq<Reason>)
  {
    forall x :: x in violations <==> exists k :: 0 <= k < n && k < |group| && x in Violations(def, root, group[k], baseline)
  }

  lemma FoundNone(def: Definition, root: Root, baseline: Option<Benchmark>, group: seq<Benchmark>)
    ensures Found(def, root, baseline, group, 0, [])
  {
  }

  lemma FoundNext(
      def: Definition, root: Root, baseline: Option<Benchmark>, group: seq<Benchmark>, n: nat, violations: seq<Reason>)
    requires n < |group| && Found(def, root, baseline, group, n, violations)
    ensures Found(def, root, baseline, group, n + 1, violations + Violations(def, root, group[n], baseline))
  {
    hide Violations;
  }

  lemma FoundAll(def: Definition, root: Root, baseline: Option<Benchmark>, group: seq<Benchmark>, violations: seq<Reason>)
    requires Found(def, root, baseline, group, |group|, violations)
    ensures forall x :: x in violations <==> exists r :: r in group && x in Violations(def, root, r, baseline)
    ensures violations == [] <==> forall r :: r in group ==> Violations(def, root, r, baseline) == []
  {
    hide Violations;
    forall x | x in violations ensures exists r :: r in group && x in Violations(def, root, r, baseline) {
      var k :| 0 <= k < |group| && x in Violations(def, root, group[k], baseline);
      assert group[k] in group;
    }
    forall r | r in group ensures Violations(def, root, r, baseline) != [] ==> violations != [] {
      var k: nat :| k < |group| && group[k] == r;
      if Violations(def, root, r, baseline) != [] {
        assert Violations(def, root, group[k], baseline)[0] in violations;
      }
    }
    if violations != [] {
      assert violations[0] in violations;
    }
  }

  /** The reasons are those of the given levels. */
  ghost predicate LevelsExplained(
      def: Definition, root: Root, baseline: Option<Benchmark>, results: seq<Benchmark>, levels: seq<int>, reasons: seq<Reason>)
  {
    forall x :: x in reasons <==> LevelReason(def, root, baseline, results, x) && x.concurrency in levels
  }

  lemma NoLevels(def: Definition, root: Root, baseline: Option<Benchmark>, results: seq<Benchmark>)
    ensures LevelsExplained(def, root, baseline, results, [], [])
  {
  }

  lemma LabelledExact(c: int, reasons: seq<Reason>, x: Reason)
    ensures x in Labelled(c, reasons) <==> x.AtLevel? && x.concurrency == c && x.reason in reasons
  {
    if x.AtLevel? && x.concurrency == c && x.reason in reasons {
      var i :| 0 <= i < |reasons| && reasons[i] == x.reason;
      assert Labelled(c, reasons)[i] == x;
    }
  }

  lemma LevelsNext(
      def: Definition, root: Root, baseline: Option<Benchmark>, results: seq<Benchmark>, levels: seq<int>, c: int,
      violations: seq<Reason>, reasons: seq<Reason>)
    requires LevelsExplained(def, root, baseline, results, levels, reasons)
    requires forall x :: x in violations <==> exists r :: r in At(results, c) && x in Violations(def, root, r, baseline)
    ensures LevelsExplained(def, root, baseline, results, levels + [c],
              if violations == [] then reasons else reasons + Labelled(c, Dedupe(violations)))
  {
    hide Violations, At, Labelled, Dedupe;
    forall x ensures x in Labelled(c, Dedupe(violations)) <==> LevelReason(def, root, baseline, results, x) && x.concurrency == c {
      LabelledExact(c, Dedupe(violations), x);
    }
    assert violations == [] ==> forall x :: x !in Labelled(c, Dedupe(violations));
  }

  lemma LevelsAll(
      def: Definition, root: Root, baseline: Option<Benchmark>, results: seq<Benchmark>, levels: seq<int>,
      groups: map<int, seq<Benchmark>>, reasons: seq<Reason>)
    requires Grouped(results, levels, groups) && LevelsExplained(def, root, baseline, results, levels, reasons)
    ensures forall x :: x in reasons <==> LevelReason(def, root, baseline, results, x)
  {
    hide Violations, At;
  }

  /** Measurements filed by load level, with the levels in order of first appearance. */
  ghost predicate Grouped(results: seq<Benchmark>, levels: seq<int>, groups: map<int, seq<Benchmark>>) {
    && (forall c :: c in levels <==> c in groups)
    && (forall c :: c in groups <==> At(results, c) != [])
    && (forall c :: c in groups ==> groups[c] == At(results, c))
  }

  ghost predicate GroupedUpTo(results: seq<Benchmark>, n: nat, levels: seq<int>, groups: map<int, seq<Benchmark>>)
    requires n <= |results|
  {
    Grouped(results[..n], levels, groups)
  }

  lemma GroupedAll(results: seq<Benchmark>, levels: seq<int>, groups: map<int, seq<Benchmark>>)
    requires GroupedUpTo(results, |results|, levels, groups)
    ensures Grouped(results, levels, groups)
  {
    assert results[..|results|] == results;
  }

  /** File one more measurement under its level. */
  function File(levels: seq<int>, groups: map<int, seq<Benchmark>>, r: Benchmark): (seq<int>, map<int, seq<Benchmark>>) {
    var c := r.concurrency;
    if c in groups then (levels, groups[c := groups[c] + [r]]) else (levels + [c], groups[c := [r]])
  }

  lemma GroupedNext(results: seq<Benchmark>, i: nat, levels: seq<int>, groups: map<int, seq<Benchmark>>)
    requires i < |results| && GroupedUpTo(results, i, levels, groups)
    ensures
      var filed := File(levels, groups, results[i]);
      GroupedUpTo(results, i + 1, filed.0, filed.1)
  {
    hide Grouped, At, File;
    assert results[..i + 1] == results[..i] + [results[i]];
    GroupedStep(results[..i], results[i], levels, groups);
  }

  lemma GroupedStep(results: seq<Benchmark>, r: Benchmark, levels: seq<int>, groups: map<int, seq<Benchmark>>)
    requires Grouped(results, levels, groups)
    ensures
      var filed := File(levels, groups, r);
      Grouped(results + [r], filed.0, filed.1)
  {
    hide At;
    var more := results + [r];
    forall c ensures c != r.concurrency ==> At(more, c) == At(results, c) {
      AtAppend(results, r, c);
    }
    AtAppend(results, r, r.concurrency);
    assert At(more, r.concurrency) == At(results, r.concurrency) + [r];
    if r.concurrency !in groups {
      assert At(more, r.concurrency) == [r];
    }
  }

  function Labelled(c: int, reasons: seq<Reason>): (r: seq<Reason>)
    ensures |r| == |reasons|
  {
    seq(|reasons|, i requires 0 <= i < |reasons| => AtLevel(c, reasons[i]))
  }

  lemma {:induction false} AtAppend(results: seq<Benchmark>, r: Benchmark, c: int)
    ensures At(results + [r], c) == At(results, c) + (if r.concurrency == c then [r] else [])
  {
    if results != [] {
      assert (results + [r])[1..] == results[1..] + [r];
      AtAppend(results[1..], r, c);
    }
  }

  /** The two set comparisons and the validity check amount to full measurement. */
  lemma MeasuredIff(def: Definition, results: seq<Benchmark>, levels: seq<int>, groups: map<int, seq<Benchmark>>)
    requires Grouped(results, levels, groups)
    ensures FullyMeasured(def, results) <==>
      && ValidUpTo(def, results, |results|)
      && groups.Keys == (set c | c in def.policy.levels)
      && !(exists c :: c in groups && |groups[c]| != def.policy.repetitions)
  {
    hide Invalid, At;
    var wanted := set c | c in def.policy.levels;
    assert forall c :: c in wanted <==> c in def.policy.levels;
    if FullyMeasured(def, results) {
      forall c ensures c in groups.Keys <==> c in wanted {
        assert c in groups.Keys <==> At(results, c) != [];
      }
    }
  }

  lemma BestIsRecommended(
      def: Definition, root: Root, baseline: Option<Benchmark>, results: seq<Benchmark>, eligible: map<int, real>, best: int)
    requires forall c :: c in eligible <==> CapacityPoint(def, root, baseline, results, c)
    requires forall c :: c in eligible ==> WorstTrial(def, root, baseline, results, c, eligible[c])
    requires best in eligible
    requires forall c :: c in eligible ==> eligible[c] < eligible[best] || (eligible[c] == eligible[best] && best <= c)
    ensures Recommended(def, root, baseline, results, best, eligible[best])
  {
  }
}

/** What the verifier's verdict says about the measurements themselves: bounds kept, and the objective served. */
module Objectives {
  import opened Common
  import opened Schemas
  import opened Verifier

  // ------------------------------------------------------------------ evidence and bounds

  /** All requests asked for were made as asked, every one succeeded, and every metric is a positive number. */
  predicate Clean(def: Definition, r: Benchmark) {
    && r.seed == def.policy.seed && r.streaming == def.streaming
    && r.numRequests >= def.policy.requestsPerTrial && r.numRequests >= 2 * r.concurrency
    && (r.numRequests == def.policy.requestsPerTrial || r.numRequests == 2 * r.concurrency)
    && r.totalRequests == r.numRequests && r.successfulRequests == r.numRequests
    && r.failedRequests == 0 && r.errorRate == 0.0
    && r.finite && r.duration > 0.0 && r.tps > 0.0 && r.latencyP95 > 0.0
    && Above(r.ttftP95, 0.0) && Above(r.tpotP95, 0.0)
  }

  /** Greater than the bound, where it was measured at all. */
  predicate Above(metric: Option<real>, bound: real) {
    metric.None? || metric.value > bound
  }

  lemma ValidMeansClean(def: Definition, r: Benchmark)
    ensures Invalid(def, r) == [] <==> Clean(def, r)
  {
  }

  /** Measured, and no greater than the bound. */
  predicate Within(metric: Option<real>, bound: Option<real>) {
    bound.Some? ==> metric.Some? && metric.value <= bound.value
  }

  /** Every bound of the SLO is met, and the throughput floor. */
  predicate KeepsBounds(def: Definition, r: Benchmark) {
    && (def.slo.Some? ==>
          && Within(r.ttftP95, def.slo.value.maxTtft)
          && Within(Some(r.latencyP95), def.slo.value.maxLatency)
          && Within(r.tpotP95, def.slo.value.maxTpot))
    && (def.policy.minimumTps.Some? ==> r.tps >= def.policy.minimumTps.value)
  }

  /** The objective can be worked out: an objective about latency needs the time to the first token. */
  predicate Serves(def: Definition, root: Root, r: Benchmark, baseline: Option<Benchmark>) {
    match def.objective
    case Throughput => r.tps > 0.0
    case Latency => r.ttftP95.Some? && r.ttftP95.value > 0.0
    case Balanced => r.ttftP95.Some? && r.ttftP95.value > 0.0 && root(Gain(r, baseline)) > 0.0
  }

  lemma NoViolationMeans(def: Definition, root: Root, r: Benchmark, baseline: Option<Benchmark>)
    ensures Violations(def, root, r, baseline) == [] <==> KeepsBounds(def, r) && Serves(def, root, r, baseline)
  {
    UtilityMeans(def, root, r, baseline);
    hide Utility;
  }

  /**
   * A level is a capacity point exactly when it was measured and every trial keeps every bound and
   * lets the objective be worked out.
   */
  lemma CapacityMeans(def: Definition, root: Root, baseline: Option<Benchmark>, results: seq<Benchmark>, c: int)
    ensures CapacityPoint(def, root, baseline, results, c) <==>
              && (exists r :: r in results && r.concurrency == c)
              && forall r :: r in results && r.concurrency == c ==> KeepsBounds(def, r) && Serves(def, root, r, baseline)
  {
    AtMeans(results, c);
    forall r: Benchmark ensures Violations(def, root, r, baseline) == [] <==> KeepsBounds(def, r) && Serves(def, root, r, baseline) {
      NoViolationMeans(def, root, r, baseline);
    }
    if At(results, c) != [] {
      assert At(results, c)[0] in At(results, c);
    }
    hide Violations, At, KeepsBounds, Serves;
  }

  lemma {:induction false} AtMeans(results: seq<Benchmark>, c: int)
    ensures forall r :: r in At(results, c) <==> r in results && r.concurrency == c
  {
    if results != [] {
      AtMeans(results[1..], c);
      assert results == [results[0]] + results[1..];
    }
  }

  // ------------------------------------------------------------------ the objectives

  /** Throughput times the speed-up in time to first token, both relative to the baseline. */
  function Gain(r: Benchmark, baseline: Option<Benchmark>): real
    requires r.ttftP95.Some? && r.ttftP95.value > 0.0
  {
    r.tps * BaseTtft(baseline) / (BaseTps(baseline) * r.ttftP95.value)
  }

  function BaseTps(baseline: Option<Benchmark>): (tps: real)
    ensures tps > 0.0
  {
    if baseline.None? then 1.0 else RMax(baseline.value.tps, TPS_FLOOR)
  }

  function BaseTtft(baseline: Option<Benchmark>): (ttft: real)
    ensures (baseline.Some? ==> Above(baseline.value.ttftP95, 0.0)) ==> ttft > 0.0
  {
    if baseline.None? || baseline.value.ttftP95.None? || baseline.value.ttftP95.value == 0.0 then 1.0
    else baseline.value.ttftP95.value
  }

  /** Positive, and one when multiplied. */
  predicate Inverse(u: real, t: real) {
    u > 0.0 && u * t == 1.0
  }

  lemma UtilityMeans(def: Definition, root: Root, r: Benchmark, baseline: Option<Benchmark>)
    ensures
      var u := Utility(def, root, r, baseline);
      var timed := r.ttftP95.Some? && r.ttftP95.value > 0.0;
      match def.objective
      case Throughput => u == r.tps
      case Latency => if timed then Inverse(u, r.ttftP95.value) else u == 0.0
      case Balanced => u == if timed then root(Gain(r, baseline)) else 0.0
  {
    if def.objective.Balanced? && r.ttftP95.Some? && r.ttftP95.value > 0.0 {
      BalancedRatio(def, root, r, baseline);
      RelativeIsGain(r, baseline);
      hide Utility, Relative, Gain;
    }
  }

  lemma BalancedRatio(def: Definition, root: Root, r: Benchmark, baseline: Option<Benchmark>)
    requires def.objective.Balanced? && r.ttftP95.Some? && r.ttftP95.value > 0.0
    ensures Utility(def, root, r, baseline) ==
              root(Relative(r.tps, BaseTps(baseline), BaseTtft(baseline), r.ttftP95.value))
  {
    hide Relative;
  }

  lemma RelativeIsGain(r: Benchmark, baseline: Option<Benchmark>)
    requires r.ttftP95.Some? && r.ttftP95.value > 0.0
    ensures Relative(r.tps, BaseTps(baseline), BaseTtft(baseline), r.ttftP95.value) == Gain(r, baseline)
  {
    hide BaseTps, BaseTtft;
    QuotientsMultiply(r.tps, BaseTps(baseline), BaseTtft(baseline), r.ttftP95.value);
  }

  lemma QuotientsMultiply(a: real, b: real, c: real, d: real)
    requires b > 0.0 && d > 0.0
    ensures (a / b) * (c / d) == a * c / (b * d)
  {
    var p, q := a / b, c / d;
    assert p * b == a && q * d == c;
    assert (p * q) * (b * d) == (p * b) * (q * d);
    assert b * d > 0.0;
  }

  /** `worst` is the least throughput of the trials at level `c`. */
  ghost predicate SlowestTrial(results: seq<Benchmark>, c: int, worst: real) {
    && (exists r :: r in results && r.concurrency == c && r.tps == worst)
    && forall r :: r in results && r.concurrency == c ==> worst <= r.tps
  }

  /** `worst` is the longest time to the first token of the trials at level `c`, all of which report one. */
  ghost predicate LatestTrial(results: seq<Benchmark>, c: int, worst: real) {
    && (exists r :: r in results && r.concurrency == c && r.ttftP95 == Some(worst))
    && forall r :: r in results && r.concurrency == c ==> r.ttftP95.Some? && r.ttftP95.value <= worst
  }

  /** `least` is the smallest gain over the baseline of the trials at level `c`, all of which have one. */
  ghost predicate LeastGain(results: seq<Benchmark>, baseline: Option<Benchmark>, c: int, least: real) {
    && (exists r :: r in results && r.concurrency == c && Timed(r) && Gain(r, baseline) == least)
    && forall r :: r in results && r.concurrency == c ==> Timed(r) && least <= Gain(r, baseline)
  }

  predicate Timed(r: Benchmark) {
    r.ttftP95.Some? && r.ttftP95.value > 0.0
  }

  /**
   * Throughput: the score is the throughput of the recommended level's slowest trial, and the slowest
   * trial of any other capacity point is no faster, nor as fast at a lower level.
   */
  lemma ThroughputVerdict(
      def: Definition, root: Root, correctness: Option<CorrectnessResult>, results: seq<Benchmark>,
      incumbent: Option<Decision>, baseline: Option<Benchmark>, d: Decision, c: int, tps: real)
    requires Judged(def, root, correctness, results, incumbent, baseline, d) && d.eligible && def.objective.Throughput?
    ensures d.score.Some? && d.recommended.Some? && SlowestTrial(results, d.recommended.value, d.score.value)
    ensures CapacityPoint(def, root, baseline, results, c) && SlowestTrial(results, c, tps) ==>
              tps < d.score.value || (tps == d.score.value && d.recommended.value <= c)
  {
    forall r: Benchmark ensures Utility(def, root, r, baseline) == r.tps {
      UtilityMeans(def, root, r, baseline);
    }
    WorstMeans(def, root, baseline, results, d.recommended.value, d.score.value);
    WorstMeans(def, root, baseline, results, c, tps);
    hide Utility, CapacityPoint, WorstTrial, Qualifies;
  }

  lemma WorstMeans(def: Definition, root: Root, baseline: Option<Benchmark>, results: seq<Benchmark>, c: int, u: real)
    ensures WorstTrial(def, root, baseline, results, c, u) <==>
              && (exists r :: r in results && r.concurrency == c && Utility(def, root, r, baseline) == u)
              && forall r :: r in results && r.concurrency == c ==> u <= Utility(def, root, r, baseline)
  {
    AtMeans(results, c);
    hide Utility, At;
  }

  /**
   * Latency: the recommended level's worst time to first token, which is one over the score, is at
   * most that of any other capacity point, and where equal the level is the lower one.
   */
  lemma LatencyVerdict(
      def: Definition, root: Root, correctness: Option<CorrectnessResult>, results: seq<Benchmark>,
      incumbent: Option<Decision>, baseline: Option<Benchmark>, d: Decision, c: int, ttft: real) returns (best: real)
    requires Judged(def, root, correctness, results, incumbent, baseline, d) && d.eligible && def.objective.Latency?
    ensures d.score.Some? && d.recommended.Some? && LatestTrial(results, d.recommended.value, best)
    ensures best > 0.0 && Inverse(d.score.value, best)
    ensures CapacityPoint(def, root, baseline, results, c) && LatestTrial(results, c, ttft) ==>
              best < ttft || (best == ttft && d.recommended.value <= c)
  {
    hide CapacityPoint, WorstTrial, Qualifies, LatestTrial, Inverse;
    best := WorstIsLatest(def, root, baseline, results, d.recommended.value, d.score.value);
    if CapacityPoint(def, root, baseline, results, c) && LatestTrial(results, c, ttft) {
      var u := LatestIsWorst(def, root, baseline, results, c, ttft);
      InverseOrder(d.score.value, best, u, ttft);
    }
  }

  lemma InverseOrder(u: real, t: real, v: real, s: real)
    requires t > 0.0 && s > 0.0 && Inverse(u, t) && Inverse(v, s)
    ensures u > v <==> t < s
    ensures u == v <==> t == s
  {
    assert u == 1.0 / t && v == 1.0 / s;
  }

  lemma WorstIsLatest(def: Definition, root: Root, baseline: Option<Benchmark>, results: seq<Benchmark>, c: int, u: real)
    returns (worst: real)
    requires def.objective.Latency? && CapacityPoint(def, root, baseline, results, c) && WorstTrial(def, root, baseline, results, c, u)
    ensures worst > 0.0 && Inverse(u, worst) && LatestTrial(results, c, worst)
  {
    hide Utility, CapacityPoint, WorstTrial, KeepsBounds, Inverse;
    CapacityMeans(def, root, baseline, results, c);
    WorstMeans(def, root, baseline, results, c, u);
    var r :| r in results && r.concurrency == c && Utility(def, root, r, baseline) == u;
    worst := r.ttftP95.value;
    UtilityMeans(def, root, r, baseline);
    forall x | x in results && x.concurrency == c ensures x.ttftP95.Some? && x.ttftP95.value <= worst {
      UtilityMeans(def, root, x, baseline);
      InverseOrder(u, worst, Utility(def, root, x, baseline), x.ttftP95.value);
    }
  }

  lemma LatestIsWorst(def: Definition, root: Root, baseline: Option<Benchmark>, results: seq<Benchmark>, c: int, ttft: real)
    returns (u: real)
    requires def.objective.Latency? && CapacityPoint(def, root, baseline, results, c) && LatestTrial(results, c, ttft)
    ensures ttft > 0.0 && Inverse(u, ttft) && WorstTrial(def, root, baseline, results, c, u)
  {
    hide Utility, CapacityPoint, WorstTrial, KeepsBounds, Inverse;
    CapacityMeans(def, root, baseline, results, c);
    var r :| r in results && r.concurrency == c && r.ttftP95 == Some(ttft);
    u := Utility(def, root, r, baseline);
    UtilityMeans(def, root, r, baseline);
    forall x | x in results && x.concurrency == c ensures u <= Utility(def, root, x, baseline) {
      UtilityMeans(def, root, x, baseline);
      InverseOrder(u, ttft, Utility(def, root, x, baseline), x.ttftP95.value);
    }
    WorstMeans(def, root, baseline, results, c, u);
  }

  /** A root that tells positive numbers apart by size. */
  ghost predicate Rising(root: Root) {
    forall x, y :: 0.0 < x < y ==> root(x) < root(y)
  }

  /**
   * Balanced: the score is the root of the recommended level's least gain, and with a rising root no
   * capacity point's least gain is greater, nor equal at a lower level.
   */
  lemma BalancedVerdict(
      def: Definition, root: Root, correctness: Option<CorrectnessResult>, results: seq<Benchmark>,
      incumbent: Option<Decision>, baseline: Option<Benchmark>, d: Decision, c: int, gain: real) returns (best: real)
    requires Judged(def, root, correctness, results, incumbent, baseline, d) && d.eligible && def.objective.Balanced?
    requires Rising(root) && (baseline.Some? ==> Above(baseline.value.ttftP95, 0.0))
    ensures d.score.Some? && d.recommended.Some? && LeastGain(results, baseline, d.recommended.value, best)
    ensures d.score.value == root(best)
    ensures CapacityPoint(def, root, baseline, results, c) && LeastGain(results, baseline, c, gain) ==>
              gain < best || (gain == best && d.recommended.value <= c)
  {
    GainsPositive(def, root, correctness, results, baseline);
    best := WorstIsLeastGain(def, root, baseline, results, d.recommended.value, d.score.value);
    if CapacityPoint(def, root, baseline, results, c) && LeastGain(results, baseline, c, gain) {
      LeastGainIsWorst(def, root, baseline, results, c, gain);
    }
    hide CapacityPoint, WorstTrial, Qualifies, Gain;
  }

  /** Valid measurements have positive gains. */
  lemma GainsPositive(
      def: Definition, root: Root, correctness: Option<CorrectnessResult>, results: seq<Benchmark>, baseline: Option<Benchmark>)
    requires Qualifies(def, root, correctness, results, baseline)
    requires baseline.Some? ==> Above(baseline.value.ttftP95, 0.0)
    ensures forall r :: r in results && Timed(r) ==> Gain(r, baseline) > 0.0
  {
    forall r | r in results && Timed(r) ensures Gain(r, baseline) > 0.0 {
      var k :| 0 <= k < |results| && results[k] == r;
      ValidMeansClean(def, r);
      hide Invalid;
      assert Invalid(def, results[k]) == [];
      PositiveGain(r, baseline);
    }
  }

  lemma PositiveGain(r: Benchmark, baseline: Option<Benchmark>)
    requires Timed(r) && r.tps > 0.0 && (baseline.Some? ==> Above(baseline.value.ttftP95, 0.0))
    ensures Gain(r, baseline) > 0.0
  {
    PositiveQuotient(r.tps * BaseTtft(baseline), BaseTps(baseline) * r.ttftP95.value);
  }

  lemma PositiveQuotient(a: real, b: real)
    requires a > 0.0 && b > 0.0
    ensures a / b > 0.0
  {
  }

  lemma WorstIsLeastGain(def: Definition, root: Root, baseline: Option<Benchmark>, results: seq<Benchmark>, c: int, u: real)
    returns (least: real)
    requires def.objective.Balanced? && CapacityPoint(def, root, baseline, results, c) && WorstTrial(def, root, baseline, results, c, u)
    requires Rising(root) && forall r :: r in results && Timed(r) ==> Gain(r, baseline) > 0.0
    ensures u == root(least) && LeastGain(results, baseline, c, least)
  {
    CapacityMeans(def, root, baseline, results, c);
    WorstMeans(def, root, baseline, results, c, u);
    var r :| r in results && r.concurrency == c && Utility(def, root, r, baseline) == u;
    assert Serves(def, root, r, baseline);
    least := Gain(r, baseline);
    UtilityMeans(def, root, r, baseline);
    forall x | x in results && x.concurrency == c ensures Timed(x) && least <= Gain(x, baseline) {
      assert Serves(def, root, x, baseline);
      UtilityMeans(def, root, x, baseline);
    }
    hide Utility, CapacityPoint, WorstTrial, KeepsBounds, Gain;
  }

  lemma LeastGainIsWorst(def: Definition, root: Root, baseline: Option<Benchmark>, results: seq<Benchmark>, c: int, gain: real)
    requires def.objective.Balanced? && LeastGain(results, baseline, c, gain)
    requires Rising(root) && forall r :: r in results && Timed(r) ==> Gain(r, baseline) > 0.0
    ensures gain > 0.0 && WorstTrial(def, root, baseline, results, c, root(gain))
  {
    WorstMeans(def, root, baseline, results, c, root(gain));
    forall x | x in results && x.concurrency == c ensures Utility(def, root, x, baseline) == root(Gain(x, baseline)) {
      UtilityMeans(def, root, x, baseline);
    }
    hide Utility, WorstTrial, Gain;
  }

  /** The gain rises with throughput and falls with the time to first token. */
  lemma GainMonotone(r: Benchmark, s: Benchmark, baseline: Option<Benchmark>)
    requires Timed(r) && Timed(s) && r.tps > 0.0 && (baseline.Some? ==> Above(baseline.value.ttftP95, 0.0))
    requires r.tps <= s.tps && s.ttftP95.value <= r.ttftP95.value
    ensures Gain(r, baseline) <= Gain(s, baseline)
    ensures r.tps < s.tps || s.ttftP95.value < r.ttftP95.value ==> Gain(r, baseline) < Gain(s, baseline)
  {
    var tps, ttft := BaseTps(baseline), BaseTtft(baseline);
    hide BaseTps, BaseTtft, RMax;
    ProductOrder(ttft, r.tps, s.tps);
    ProductOrder(tps, s.ttftP95.value, r.ttftP95.value);
    QuotientOrder(ttft * r.tps, tps * r.ttftP95.value, ttft * s.tps, tps * s.ttftP95.value);
  }

  lemma ProductOrder(a: real, b: real, c: real)
    requires a > 0.0 && 0.0 < b <= c
    ensures 0.0 < a * b <= a * c && (b < c ==> a * b < a * c)
  {
  }

  lemma QuotientOrder(a: real, b: real, c: real, d: real)
    requires 0.0 < a <= c && 0.0 < d <= b
    ensures a / b <= c / d && (a < c || d < b ==> a / b < c / d)
  {
    PositiveQuotient(a, b);
    ProductOrder(1.0 / b, a, c);
    InverseFalls(d, b);
    ProductOrder(c, 1.0 / b, 1.0 / d);
    assert a / b == 1.0 / b * a && c / d == c * (1.0 / d);
  }

  lemma InverseFalls(d: real, b: real)
    requires 0.0 < d <= b
    ensures 0.0 < 1.0 / b <= 1.0 / d && (d < b ==> 1.0 / b < 1.0 / d)
  {
    assert 1.0 / b * b == 1.0 && 1.0 / d * d == 1.0;
    InverseOrder(1.0 / b, b, 1.0 / d, d);
  }

  /** The baseline's own gain is one, unless it is slower than the floor its throughput is measured from. */
  lemma BaselineGain(b: Benchmark)
    requires Timed(b) && b.tps > 0.0
    ensures Gain(b, Some(b)) == 1.0 <==> b.tps >= TPS_FLOOR
  {
    var ttft := b.ttftP95.value;
    var tps := RMax(b.tps, TPS_FLOOR);
    assert b.tps * ttft == tps * ttft <==> b.tps == tps;
    UnitQuotient(b.tps * ttft, tps * ttft);
  }

  lemma UnitQuotient(a: real, b: real)
    requires b > 0.0
    ensures a / b == 1.0 <==> a == b
  {
  }

  /**
   * Correctness is covered exactly when the fixed suite was observed at all, nothing observed failed,
   * and every case was observed without streaming, and with it if the suite asks for that.
   */
  lemma CoverageMeans(def: Definition, correctness: Option<CorrectnessResult>)
    ensures CorrectnessCovered(def, correctness) <==>
              && correctness.Some? && correctness.value.suite == def.suite.fingerprint
              && |correctness.value.observations| > 0
              && (forall o :: o in correctness.value.observations ==> o.passed)
              && (forall name :: name in def.suite.cases ==> Seen(correctness.value.observations, name, false))
              && (def.suite.verifyStreaming ==> forall name :: name in def.suite.cases ==> Seen(correctness.value.observations, name, true))
  {
    if correctness.Some? && forall o :: o in correctness.value.observations ==> o.passed {
      forall name, streaming ensures Observed(correctness.value, name, streaming) <==> Seen(correctness.value.observations, name, streaming) {
      }
    }
    hide Observed, Seen;
  }

  predicate Seen(observations: seq<Observation>, name: string, streaming: bool) {
    exists o :: o in observations && o.name == name && o.streaming == streaming
  }
}

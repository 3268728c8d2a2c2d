/** Contracts persisted by the optimizer: measurements, verdicts and experiment results. */
module Schemas {
  import opened Common

  datatype Objective = Throughput | Latency | Balanced

  /** Latency bounds in milliseconds; a missing bound is not enforced. */
  datatype LatencyConstraints = LatencyConstraints(maxTtft: Option<real>, maxLatency: Option<real>, maxTpot: Option<real>) {
    predicate IsEmpty() {
      maxTtft.None? && maxLatency.None? && maxTpot.None?
    }
  }

  /**
   * Aggregate of one benchmark run. `finite` says that every metric is an ordinary number; when
   * it is false (a NaN or an infinity was reported) the values below carry no information.
   */
  datatype Benchmark = Benchmark(
    concurrency: int, numRequests: int, seed: int, streaming: bool,
    totalRequests: int, successfulRequests: int, failedRequests: int, errorRate: real,
    finite: bool, duration: real, tps: real, latencyP95: real, ttftP95: Option<real>, tpotP95: Option<real>)

  datatype Observation = Observation(name: string, streaming: bool, passed: bool, expected: Option<string>)

  datatype CorrectnessResult = CorrectnessResult(suite: string, observations: seq<Observation>) {
    predicate Passed() {
      observations != [] && forall o :: o in observations ==> o.passed
    }
  }

  /** The fixed correctness suite: its fingerprint, its case names and whether streaming is checked too. */
  datatype Suite = Suite(fingerprint: string, cases: seq<string>, verifyStreaming: bool)

  datatype Policy = Policy(
    seed: int, requestsPerTrial: int, repetitions: nat, levels: seq<int>,
    minimumTps: Option<real>, minimumImprovement: real)
  {
    /** What the schema's validators enforce. */
    ghost predicate Valid() {
      && requestsPerTrial >= 2 && repetitions >= 2
      && levels != [] && (forall i, j :: 0 <= i < j < |levels| ==> levels[i] < levels[j])
      && (forall c :: c in levels ==> 1 <= c <= 65536)
      && 0.0 <= minimumImprovement < 1.0
    }
  }

  datatype Definition = Definition(
    policy: Policy, objective: Objective, streaming: bool, slo: Option<LatencyConstraints>, suite: Suite)

  datatype Reason =
    | CorrectnessFailed | CasesMissing
    | SeedChanged | SampleCountChanged | StreamingChanged | RequestsMissing | RequestsFailed | MetricsInvalid
    | LevelsNotCovered | RepetitionsMissing
    | TtftUnavailable | TtftExceeded | LatencyExceeded | TpotUnavailable | TpotExceeded
    | BelowFloor | ObjectiveUnavailable | NoCapacityPoint | NotAnImprovement
    | AtLevel(concurrency: int, reason: Reason)
    | NotCompleted | CorrectnessRejected | RunFailed(error: string)

  datatype Decision = Decision(
    eligible: bool, accepted: bool, reasons: seq<Reason>, score: Option<real>, improvement: Option<real>,
    recommended: Option<int>, maximum: Option<int>)

  function Ineligible(reasons: seq<Reason>): Decision {
    Decision(false, false, reasons, None, None, None, None)
  }

  /** An agent-authored experiment; the configuration itself is opaque to the search. */
  datatype Proposal = Proposal(hypothesis: string, configuration: string, profile: bool)

  datatype Status = Verified | Rejected | Failed | Interrupted

  /** `stamp` stands for the wall-clock fields, which differ between otherwise equal results. */
  datatype ExperimentResult = ExperimentResult(
    id: int, proposal: Proposal, status: Status, stamp: int, correctness: Option<CorrectnessResult>,
    benchmarks: seq<Benchmark>, decision: Decision, error: Option<string>)

  datatype Recipe = Recipe(runFingerprint: string, experiment: int, definition: Definition, result: ExperimentResult)

  /** Everything the recipe validator demands before a result may be deployed. */
  predicate Deployable(recipe: Recipe, fingerprint: Definition -> string) {
    && recipe.runFingerprint == fingerprint(recipe.definition)
    && recipe.result.id == recipe.experiment && recipe.result.decision.accepted
    && recipe.result.status == Verified && recipe.result.decision.eligible
    && recipe.result.correctness.Some? && recipe.result.correctness.value.Passed()
  }
}

/**
 * The state of the search as a function of the recorded results, and what any properly judged
 * history guarantees about it.
 */
module Search {
  import opened Common
  import opened Schemas
  import opened Verifier

  /** The optimizer's `_reference`, `_baseline`, `_baseline_metric` and `_best`. */
  datatype SearchState = SearchState(
    reference: Option<map<string, string>>, baseline: Option<ExperimentResult>,
    baselineMetric: Option<Benchmark>, best: Option<ExperimentResult>)

  const FRESH := SearchState(None, None, None, None)

  /** Expected outputs recorded by a passed correctness run, by case name. */
  function References(observations: seq<Observation>): map<string, string> {
    if observations == [] then map[]
    else
      var n := |observations| - 1;
      var earlier := References(observations[..n]);
      match observations[n].expected
      case Some(text) => earlier[observations[n].name := text]
      case None => earlier
  }

  function ExpectedTrials(def: Definition): nat {
    |def.policy.levels| * def.policy.repetitions
  }

  predicate AllValid(def: Definition, benchmarks: seq<Benchmark>) {
    forall b :: b in benchmarks ==> Invalid(def, b) == []
  }

  /** Whether a result can serve as the baseline: fully measured, whatever the verdict. */
  predicate IsBaseline(def: Definition, r: ExperimentResult) {
    && (r.status == Verified || r.status == Rejected)
    && |r.benchmarks| == ExpectedTrials(def) && r.benchmarks != []
    && AllValid(def, r.benchmarks)
  }

  /** `_remember_reference`: the first passed correctness run and the first baseline are kept. */
  function Remember(def: Definition, s: SearchState, r: ExperimentResult): SearchState {
    var t :=
      if s.reference.None? && r.correctness.Some? && r.correctness.value.Passed()
      then s.(reference := Some(References(r.correctness.value.observations))) else s;
    if t.baseline.None? && IsBaseline(def, r)
    then t.(baseline := Some(r), baselineMetric := Some(r.benchmarks[0])) else t
  }

  /** Taking note of one recorded result. */
  function Absorb(def: Definition, s: SearchState, r: ExperimentResult): SearchState {
    var t := Remember(def, s, r);
    if r.decision.accepted then t.(best := Some(r)) else t
  }

  /** The search state after a history of results. */
  function Fold(def: Definition, history: seq<ExperimentResult>): SearchState {
    if history == [] then FRESH
    else Absorb(def, Fold(def, history[..|history| - 1]), history[|history| - 1])
  }

  lemma FoldNext(def: Definition, history: seq<ExperimentResult>, r: ExperimentResult)
    ensures Fold(def, history + [r]) == Absorb(def, Fold(def, history), r)
  {
    assert (history + [r])[..|history|] == history;
  }

  /** A result the search learns nothing from: unmeasured, not accepted, without passed correctness. */
  predicate Neutral(r: ExperimentResult) {
    && !r.decision.accepted && r.status != Verified && r.status != Rejected
    && (r.correctness.Some? ==> !r.correctness.value.Passed())
  }

  /** The results the search learns from. */
  function Telling(history: seq<ExperimentResult>): seq<ExperimentResult> {
    if history == [] then []
    else
      var n := |history| - 1;
      Telling(history[..n]) + (if Neutral(history[n]) then [] else [history[n]])
  }

  /**
   * Interruptions and failures leave no trace: the search state is that of a run in which only the
   * other experiments ever happened.
   */
  lemma {:induction false} OnlyTellingResultsCount(def: Definition, history: seq<ExperimentResult>)
    ensures Fold(def, Telling(history)) == Fold(def, history)
    decreases |history|
  {
    if history != [] {
      var n := |history| - 1;
      OnlyTellingResultsCount(def, history[..n]);
      if Neutral(history[n]) {
        assert Telling(history[..n]) + [] == Telling(history[..n]);
      } else {
        FoldNext(def, Telling(history[..n]), history[n]);
      }
    }
  }

  function BestDecision(s: SearchState): Option<Decision> {
    if s.best.Some? then Some(s.best.value.decision) else None
  }

  /** The measurement the verifier normalises by: the baseline's first, or this experiment's own when it is the first valid one. */
  function EffectiveMetric(def: Definition, s: SearchState, benchmarks: seq<Benchmark>): Option<Benchmark> {
    if s.baselineMetric.None? && benchmarks != [] && AllValid(def, benchmarks) then Some(benchmarks[0])
    else s.baselineMetric
  }

  // ------------------------------------------------------------------ properly judged histories

  /** A result whose verdict follows from its own evidence and from the search state it was measured in. */
  ghost predicate WellJudged(def: Definition, root: Root, prior: seq<ExperimentResult>, r: ExperimentResult) {
    && (r.decision.eligible <==> r.status == Verified)
    && (r.decision.accepted ==> r.decision.eligible)
    && (r.decision.eligible ==>
          && r.correctness.Some? && r.correctness.value.Passed()
          && Judged(def, root, r.correctness, r.benchmarks, BestDecision(Fold(def, prior)),
                    EffectiveMetric(def, Fold(def, prior), r.benchmarks), r.decision))
  }

  ghost predicate WellJudgedHistory(def: Definition, root: Root, history: seq<ExperimentResult>) {
    forall i :: 0 <= i < |history| ==> WellJudged(def, root, history[..i], history[i])
  }

  lemma WellJudgedNext(def: Definition, root: Root, history: seq<ExperimentResult>, r: ExperimentResult)
    requires WellJudgedHistory(def, root, history) && WellJudged(def, root, history, r)
    ensures WellJudgedHistory(def, root, history + [r])
  {
    hide WellJudged;
    var next := history + [r];
    forall i | 0 <= i < |next| ensures WellJudged(def, root, next[..i], next[i]) {
      assert next[..i] == history[..i];
      assert i == |history| ==> history[..i] == history;
    }
  }

  lemma WellJudgedPrefix(def: Definition, root: Root, history: seq<ExperimentResult>, n: nat)
    requires WellJudgedHistory(def, root, history) && n <= |history|
    ensures WellJudgedHistory(def, root, history[..n])
  {
    hide WellJudged;
    forall i | 0 <= i < n ensures WellJudged(def, root, history[..n][..i], history[..n][i]) {
      assert history[..n][..i] == history[..i];
    }
  }

  /** An eligible decision has a positive score. */
  lemma EligibleScore(def: Definition, root: Root, prior: seq<ExperimentResult>, r: ExperimentResult)
    requires WellJudged(def, root, prior, r) && r.decision.eligible
    ensures r.decision.score.Some? && r.decision.score.value > 0.0
  {
    hide Utility, At, SloViolations, Fold, EffectiveMetric;
    var metric := EffectiveMetric(def, Fold(def, prior), r.benchmarks);
    var c := r.decision.recommended.value;
    var b :| b in At(r.benchmarks, c) && Utility(def, root, b, metric) == r.decision.score.value;
    assert Violations(def, root, b, metric) == [];
  }

  /** A score improved by the given fraction. */
  function Raised(score: real, fraction: real): real {
    score * (1.0 + fraction)
  }

  lemma Commute(a: real, b: real)
    ensures a * b == b * a
  {
  }

  lemma Distribute(a: real, b: real, factor: real)
    ensures (a - b) * factor == a * factor - b * factor
  {
  }

  lemma ScaleOrder(a: real, b: real, factor: real)
    requires factor > 0.0
    ensures a >= b <==> a * factor >= b * factor
  {
    if a >= b {
      assert (a - b) * factor >= 0.0;
      Distribute(a, b, factor);
    } else {
      assert (b - a) * factor > 0.0;
      Distribute(b, a, factor);
    }
  }

  /** Improving by the required fraction means multiplying the score. */
  lemma ImprovementFactor(score: real, previous: real, fraction: real)
    requires previous > 0.0
    ensures score / previous - 1.0 >= fraction <==> score >= Raised(previous, fraction)
  {
    var ratio := score / previous;
    ScaleOrder(ratio, 1.0 + fraction, previous);
    Commute(1.0 + fraction, previous);
  }

  lemma RaisedGrows(score: real, fraction: real)
    requires score >= 0.0 && fraction >= 0.0
    ensures Raised(score, fraction) >= score
  {
    assert score * fraction >= 0.0;
  }

  lemma RaisedMonotone(a: real, b: real, fraction: real)
    requires a <= b && fraction >= 0.0
    ensures Raised(a, fraction) <= Raised(b, fraction)
  {
    ScaleOrder(b, a, 1.0 + fraction);
  }

  /** What being accepted means, given the decision on the incumbent. */
  ghost predicate AcceptedOver(def: Definition, incumbent: Option<Decision>, d: Decision) {
    && (incumbent.None? ==> d.accepted)
    && (incumbent.Some? && incumbent.value.score.Some? && incumbent.value.score.value > 0.0 ==>
          (d.accepted ==
            (d.score.Some? && d.score.value >= Raised(incumbent.value.score.value, def.policy.minimumImprovement))))
  }

  lemma JudgedAgainst(
      def: Definition, root: Root, correctness: Option<CorrectnessResult>, results: seq<Benchmark>,
      incumbent: Option<Decision>, baseline: Option<Benchmark>, d: Decision)
    requires Judged(def, root, correctness, results, incumbent, baseline, d) && d.eligible
    ensures AcceptedOver(def, incumbent, d)
  {
    hide Recommended, CapacityPoint, Qualifies, Raised;
    if incumbent.Some? && incumbent.value.score.Some? && incumbent.value.score.value > 0.0 {
      ImprovementFactor(d.score.value, incumbent.value.score.value, def.policy.minimumImprovement);
    }
  }

  /** What one more properly judged result does to the best score. */
  lemma BestStep(def: Definition, root: Root, prior: seq<ExperimentResult>, r: ExperimentResult)
    requires WellJudged(def, root, prior, r) && r.decision.eligible
    ensures AcceptedOver(def, BestDecision(Fold(def, prior)), r.decision)
  {
    hide Judged, EffectiveMetric, Fold, AcceptedOver;
    JudgedAgainst(def, root, r.correctness, r.benchmarks, BestDecision(Fold(def, prior)),
      EffectiveMetric(def, Fold(def, prior), r.benchmarks), r.decision);
  }

  /** A result that may be deployed. */
  ghost predicate Sound(r: ExperimentResult) {
    && r.decision.accepted && r.decision.eligible && r.status == Verified
    && r.correctness.Some? && r.correctness.value.Passed()
    && r.decision.score.Some? && r.decision.score.value > 0.0
  }

  /** A recorded decision that does not put `best` in question. */
  predicate Dominated(best: Decision, d: Decision, fraction: real)
    requires best.score.Some?
  {
    d.eligible ==>
      && d.score.Some?
      && (if d.accepted then d.score.value <= best.score.value else d.score.value < Raised(best.score.value, fraction))
  }

  /** What holds of the best result after any properly judged history. */
  ghost predicate BestOfHistory(best: Option<ExperimentResult>, history: seq<ExperimentResult>, fraction: real) {
    && (best.None? <==> forall r :: r in history ==> !r.decision.eligible)
    && (best.Some? ==>
          && best.value in history && Sound(best.value)
          && forall r :: r in history ==> Dominated(best.value.decision, r.decision, fraction))
  }

  /**
   * The final best has the largest accepted score, and no eligible result that was turned down
   * reaches the required improvement over it; nothing is best exactly when nothing was eligible.
   */
  lemma {:induction false} BestDominates(def: Definition, root: Root, history: seq<ExperimentResult>)
    requires WellJudgedHistory(def, root, history) && def.policy.minimumImprovement >= 0.0
    ensures BestOfHistory(Fold(def, history).best, history, def.policy.minimumImprovement)
    decreases |history|
  {
    hide WellJudged;
    if history != [] {
      var n := |history| - 1;
      var prior, r := history[..n], history[n];
      assert WellJudged(def, root, prior, r);
      WellJudgedPrefix(def, root, history, n);
      BestDominates(def, root, prior);
      assert history == prior + [r];
      AbsorbBest(def, prior, r);
      JudgedSound(def, root, prior, r);
      hide *;
      BestExtends(def, Fold(def, prior).best, Fold(def, history).best, prior, r);
    }
  }

  lemma AbsorbBest(def: Definition, prior: seq<ExperimentResult>, r: ExperimentResult)
    ensures Fold(def, prior + [r]).best == if r.decision.accepted then Some(r) else Fold(def, prior).best
  {
    FoldNext(def, prior, r);
  }

  /** What a properly judged result carries, whatever came before. */
  lemma JudgedSound(def: Definition, root: Root, prior: seq<ExperimentResult>, r: ExperimentResult)
    requires WellJudged(def, root, prior, r)
    ensures r.decision.accepted ==> r.decision.eligible && Sound(r)
    ensures r.decision.eligible ==>
              && r.decision.score.Some?
              && AcceptedOver(def, BestDecision(Fold(def, prior)), r.decision)
  {
    hide Judged, EffectiveMetric, Fold, AcceptedOver;
    if r.decision.eligible {
      EligibleScore(def, root, prior, r);
      BestStep(def, root, prior, r);
    }
  }

  lemma DominatedByBetter(best: Decision, next: Decision, d: Decision, fraction: real)
    requires best.score.Some? && next.score.Some? && 0.0 <= best.score.value && 0.0 <= fraction
    requires next.score.value >= Raised(best.score.value, fraction)
    requires Dominated(best, d, fraction)
    ensures Dominated(next, d, fraction)
  {
    RaisedGrows(best.score.value, fraction);
    RaisedMonotone(best.score.value, next.score.value, fraction);
    hide Raised;
  }

  lemma BestExtends(
      def: Definition, best: Option<ExperimentResult>, next: Option<ExperimentResult>,
      prior: seq<ExperimentResult>, r: ExperimentResult)
    requires def.policy.minimumImprovement >= 0.0
    requires BestOfHistory(best, prior, def.policy.minimumImprovement)
    requires r.decision.accepted ==> r.decision.eligible && Sound(r)
    requires
      r.decision.eligible ==>
        && r.decision.score.Some?
        && AcceptedOver(def, if best.Some? then Some(best.value.decision) else None, r.decision)
    requires next == if r.decision.accepted then Some(r) else best
    ensures BestOfHistory(next, prior + [r], def.policy.minimumImprovement)
  {
    hide Raised;
    var all := prior + [r];
    assert forall x :: x in all <==> x in prior || x == r;
    if next.Some? {
      forall x | x in all ensures Dominated(next.value.decision, x.decision, def.policy.minimumImprovement) {
        if x in prior && r.decision.accepted && best.Some? {
          DominatedByBetter(best.value.decision, r.decision, x.decision, def.policy.minimumImprovement);
        }
      }
    }
  }

  // ------------------------------------------------------------------ growth of accepted scores

  /** A score improved `n` times by the same fraction: the score times `(1 + fraction)` to the `n`. */
  function Compounded(score: real, fraction: real, n: nat): real {
    if n == 0 then score else Raised(Compounded(score, fraction, n - 1), fraction)
  }

  /** The accepted results of a history, in order. */
  function Accepted(history: seq<ExperimentResult>): seq<ExperimentResult> {
    if history == [] then []
    else
      var n := |history| - 1;
      Accepted(history[..n]) + (if history[n].decision.accepted then [history[n]] else [])
  }

  /** The best result is the last accepted one. */
  lemma {:induction false} BestIsLastAccepted(def: Definition, history: seq<ExperimentResult>)
    ensures Accepted(history) == [] ==> Fold(def, history).best.None?
    ensures Accepted(history) != [] ==>
              Fold(def, history).best == Some(Accepted(history)[|Accepted(history)| - 1])
    decreases |history|
  {
    if history != [] {
      BestIsLastAccepted(def, history[..|history| - 1]);
    }
  }

  ghost predicate ChainFrom(rs: seq<ExperimentResult>, fraction: real) {
    && (forall i :: 0 <= i < |rs| ==> rs[i].decision.score.Some? && rs[i].decision.score.value > 0.0)
    && (forall i :: 0 < i < |rs| ==>
          rs[i].decision.score.value >= Raised(rs[i - 1].decision.score.value, fraction))
  }

  lemma AcceptedSplit(history: seq<ExperimentResult>)
    ensures
      if history == [] then Accepted(history) == []
      else
        var r := history[|history| - 1];
        Accepted(history) == Accepted(history[..|history| - 1]) + (if r.decision.accepted then [r] else [])
  {
  }

  lemma LastJudged(def: Definition, root: Root, history: seq<ExperimentResult>)
    requires WellJudgedHistory(def, root, history) && history != []
    ensures WellJudged(def, root, history[..|history| - 1], history[|history| - 1])
  {
    hide WellJudged;
  }

  lemma {:induction false} AcceptedChain(def: Definition, root: Root, history: seq<ExperimentResult>)
    requires WellJudgedHistory(def, root, history)
    ensures ChainFrom(Accepted(history), def.policy.minimumImprovement)
    decreases |history|
  {
    AcceptedSplit(history);
    hide WellJudgedHistory, WellJudged, Fold, AcceptedOver, Sound, BestDecision;
    if history != [] {
      var n := |history| - 1;
      var prior, r := history[..n], history[n];
      hide Accepted, ChainFrom;
      LastJudged(def, root, history);
      WellJudgedPrefix(def, root, history, n);
      AcceptedChain(def, root, prior);
      BestIsLastAccepted(def, prior);
      JudgedSound(def, root, prior, r);
      if r.decision.accepted {
        ChainExtends(def, Accepted(prior), Fold(def, prior), r);
      }
    }
  }

  lemma ChainExtends(def: Definition, rs: seq<ExperimentResult>, s: SearchState, r: ExperimentResult)
    requires ChainFrom(rs, def.policy.minimumImprovement) && Sound(r)
    requires rs == [] ==> s.best.None?
    requires rs != [] ==> s.best == Some(rs[|rs| - 1])
    requires AcceptedOver(def, BestDecision(s), r.decision)
    ensures ChainFrom(rs + [r], def.policy.minimumImprovement)
  {
    hide Raised;
  }

  /** Over any history, the `k`-th accepted score is at least the first one compounded `k` times. */
  lemma {:induction false} AcceptedScoresCompound(def: Definition, root: Root, history: seq<ExperimentResult>, k: nat)
    requires WellJudgedHistory(def, root, history) && def.policy.minimumImprovement >= 0.0
    requires k < |Accepted(history)|
    ensures
      var rs := Accepted(history);
      && rs[0].decision.score.Some? && rs[k].decision.score.Some?
      && rs[k].decision.score.value >= Compounded(rs[0].decision.score.value, def.policy.minimumImprovement, k)
    decreases k
  {
    AcceptedChain(def, root, history);
    hide WellJudgedHistory, Raised, Accepted;
    if k > 0 {
      AcceptedScoresCompound(def, root, history, k - 1);
      var rs, fraction := Accepted(history), def.policy.minimumImprovement;
      RaisedMonotone(Compounded(rs[0].decision.score.value, fraction, k - 1), rs[k - 1].decision.score.value, fraction);
    }
  }

  /** The recipe for the search's best result always passes the recipe validator. */
  lemma BestIsDeployable(def: Definition, root: Root, history: seq<ExperimentResult>, fingerprint: Definition -> string)
    requires WellJudgedHistory(def, root, history) && def.policy.minimumImprovement >= 0.0
    requires Fold(def, history).best.Some?
    ensures
      var best := Fold(def, history).best.value;
      Deployable(Recipe(fingerprint(def), best.id, def, best), fingerprint)
  {
    BestDominates(def, root, history);
  }
}

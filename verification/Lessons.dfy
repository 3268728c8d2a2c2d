/** What the search state says of the recorded results, and what evidence an experiment comes back with. */
module Lessons {
  import opened Common
  import opened Schemas
  import opened Verifier
  import opened Objectives
  import opened Search
  import opened Experiment

  // ------------------------------------------------------------------ what is remembered

  /** Position `k` is the first at which `holds`. */
  ghost predicate First<T>(s: seq<T>, holds: T -> bool, k: nat) {
    k < |s| && holds(s[k]) && forall j :: 0 <= j < k ==> !holds(s[j])
  }

  /** Position `k` is the last at which `holds`. */
  ghost predicate Latest<T>(s: seq<T>, holds: T -> bool, k: nat) {
    k < |s| && holds(s[k]) && forall j :: k < j < |s| ==> !holds(s[j])
  }

  lemma FirstNext<T>(s: seq<T>, x: T, holds: T -> bool, k: nat)
    ensures First(s + [x], holds, k) <==>
              First(s, holds, k) || (k == |s| && holds(x) && forall j :: 0 <= j < |s| ==> !holds(s[j]))
    ensures Latest(s + [x], holds, k) <==> if holds(x) then k == |s| else Latest(s, holds, k)
  {
    var t := s + [x];
    assert forall j :: 0 <= j < |s| ==> t[j] == s[j];
    assert t[|s|] == x;
  }

  /** A verdict was reached, and every level was measured in full with clean measurements. */
  predicate FullyTried(def: Definition, r: ExperimentResult) {
    && (r.status == Verified || r.status == Rejected)
    && |r.benchmarks| == |def.policy.levels| * def.policy.repetitions && |r.benchmarks| > 0
    && forall k :: 0 <= k < |r.benchmarks| ==> Clean(def, r.benchmarks[k])
  }

  predicate PassedSuite(r: ExperimentResult) {
    r.correctness.Some? && r.correctness.value.Passed()
  }

  lemma BaselineMeans(def: Definition, r: ExperimentResult)
    ensures IsBaseline(def, r) <==> FullyTried(def, r)
  {
    forall b: Benchmark ensures Invalid(def, b) == [] <==> Clean(def, b) {
      ValidMeansClean(def, b);
    }
    assert forall k :: 0 <= k < |r.benchmarks| ==> r.benchmarks[k] in r.benchmarks;
    hide Invalid, Clean;
  }

  function Full(def: Definition): ExperimentResult -> bool {
    (r: ExperimentResult) => FullyTried(def, r)
  }

  function Suited(): ExperimentResult -> bool {
    (r: ExperimentResult) => PassedSuite(r)
  }

  function Winning(): ExperimentResult -> bool {
    (r: ExperimentResult) => r.decision.accepted
  }

  ghost predicate Holds(history: seq<ExperimentResult>, holds: ExperimentResult -> bool) {
    exists k :: 0 <= k < |history| && holds(history[k])
  }

  lemma HoldsNext(history: seq<ExperimentResult>, r: ExperimentResult, holds: ExperimentResult -> bool)
    ensures Holds(history + [r], holds) <==> Holds(history, holds) || holds(r)
  {
    var longer := history + [r];
    assert longer[|history|] == r;
    if k :| 0 <= k < |history| && holds(history[k]) {
      assert longer[k] == history[k];
    }
  }

  /** The baseline is the first fully tried result, and its metric that result's first measurement. */
  lemma {:induction false} BaselineIsFirst(def: Definition, history: seq<ExperimentResult>, k: nat)
    ensures Fold(def, history).baseline.Some? <==> Holds(history, Full(def))
    ensures Fold(def, history).baselineMetric.Some? <==> Holds(history, Full(def))
    ensures First(history, Full(def), k) ==>
              && Fold(def, history).baseline == Some(history[k])
              && Fold(def, history).baselineMetric == Some(history[k].benchmarks[0])
    decreases |history|
  {
    if history != [] {
      var n := |history| - 1;
      var r, earlier := history[n], history[..n];
      assert history == earlier + [r];
      BaselineIsFirst(def, earlier, k);
      BaselineMeans(def, r);
      FirstNext(earlier, r, Full(def), k);
      HoldsNext(earlier, r, Full(def));
      hide IsBaseline, References, First, Holds;
      NoneBefore(earlier, Full(def));
    }
  }

  lemma NoneBefore(history: seq<ExperimentResult>, holds: ExperimentResult -> bool)
    ensures !Holds(history, holds) <==> forall j :: 0 <= j < |history| ==> !holds(history[j])
  {
  }

  /** The reference outputs are those of the first result that passed the suite. */
  lemma {:induction false} ReferenceIsFirst(def: Definition, history: seq<ExperimentResult>, k: nat)
    ensures Fold(def, history).reference.Some? <==> Holds(history, Suited())
    ensures First(history, Suited(), k) ==>
              Fold(def, history).reference == Some(References(history[k].correctness.value.observations))
    decreases |history|
  {
    if history != [] {
      var n := |history| - 1;
      var r, earlier := history[n], history[..n];
      assert history == earlier + [r];
      ReferenceIsFirst(def, earlier, k);
      FirstNext(earlier, r, Suited(), k);
      HoldsNext(earlier, r, Suited());
      hide IsBaseline, References, First, Holds;
      NoneBefore(earlier, Suited());
    }
  }

  /** The best is the last accepted result. */
  lemma {:induction false} BestIsLatest(def: Definition, history: seq<ExperimentResult>, k: nat)
    ensures Fold(def, history).best.Some? <==> Holds(history, Winning())
    ensures Latest(history, Winning(), k) ==> Fold(def, history).best == Some(history[k])
    decreases |history|
  {
    if history != [] {
      var n := |history| - 1;
      var r, earlier := history[n], history[..n];
      assert history == earlier + [r];
      BestIsLatest(def, earlier, k);
      FirstNext(earlier, r, Winning(), k);
      HoldsNext(earlier, r, Winning());
      hide Remember, Latest, Holds;
      RememberKeepsBest(def, Fold(def, earlier), r);
    }
  }

  lemma RememberKeepsBest(def: Definition, s: SearchState, r: ExperimentResult)
    ensures Remember(def, s, r).best == s.best
  {
  }

  /** The reference output of a case is the last one recorded under its name. */
  lemma {:induction false} ReferencesMean(observations: seq<Observation>, name: string, k: nat)
    ensures
      Latest(observations, (o: Observation) => o.name == name && o.expected.Some?, k) ==>
        name in References(observations) && Some(References(observations)[name]) == observations[k].expected
    ensures name in References(observations) ==> exists o :: o in observations && o.name == name && o.expected.Some?
    decreases |observations|
  {
    if observations != [] {
      var n := |observations| - 1;
      var earlier := observations[..n];
      assert observations == earlier + [observations[n]];
      ReferencesMean(earlier, name, k);
      FirstNext(earlier, observations[n], (o: Observation) => o.name == name && o.expected.Some?, k);
      assert forall o :: o in observations <==> o in earlier || o == observations[n];
    }
  }

  // ------------------------------------------------------------------ what is measured, and how it ends

  /** The trials of a sweep: every repetition of a level, level after level. */
  function Planned(levels: seq<int>, repetitions: nat): seq<(int, int)> {
    if levels == [] then []
    else seq(repetitions, t requires 0 <= t < repetitions => (levels[0], t + 1)) + Planned(levels[1..], repetitions)
  }

  lemma {:induction false} PlannedMembers(levels: seq<int>, repetitions: nat, c: int, t: int)
    ensures (c, t) in Planned(levels, repetitions) <==> c in levels && 1 <= t <= repetitions
  {
    if levels != [] {
      var here := seq(repetitions, u requires 0 <= u < repetitions => (levels[0], u + 1));
      PlannedMembers(levels[1..], repetitions, c, t);
      assert levels == [levels[0]] + levels[1..];
      if c == levels[0] && 1 <= t <= repetitions {
        assert here[t - 1] == (c, t);
      }
    }
  }

  /** The first trials of the plan completed and were measured; if that is not all, the next one ended the sweep. */
  ghost predicate Ran(world: World, plan: seq<(int, int)>, ending: Ending, measured: seq<Benchmark>) {
    && |measured| <= |plan|
    && (forall k :: 0 <= k < |measured| ==>
          world.trials(plan[k].0, plan[k].1).ending.Completes? && measured[k] == world.trials(plan[k].0, plan[k].1).measured)
    && if |measured| == |plan| then ending.Completes?
       else
         var next := plan[|measured|];
         ending == world.trials(next.0, next.1).ending && !ending.Completes?
  }

  lemma RanThen(world: World, a: seq<(int, int)>, b: seq<(int, int)>, first: (Ending, seq<Benchmark>), second: (Ending, seq<Benchmark>))
    requires Ran(world, a, first.0, first.1) && Ran(world, b, second.0, second.1)
    ensures if first.0.Completes? then Ran(world, a + b, second.0, first.1 + second.1) else Ran(world, a + b, first.0, first.1)
  {
    var n := |first.1|;
    if first.0.Completes? {
      assert n == |a|;
      assert forall k :: n <= k < n + |second.1| ==> (a + b)[k] == b[k - n];
    }
  }

  lemma {:induction false} RepeatRan(world: World, c: int, first: int, last: int)
    ensures
      var r := Repeat(world, c, first, last);
      Ran(world, seq(if last < first then 0 else last - first + 1, t requires 0 <= t => (c, first + t)), r.0, r.1)
    decreases last - first
  {
    if first <= last {
      var trial, rest := world.trials(c, first), Repeat(world, c, first + 1, last);
      RepeatRan(world, c, first + 1, last);
      var plan := seq(last - first + 1, t requires 0 <= t => (c, first + t));
      var later := seq(last - first, t requires 0 <= t => (c, first + 1 + t));
      assert plan == [(c, first)] + later;
      if trial.ending.Completes? {
        assert Ran(world, [(c, first)], Completes, [trial.measured]);
        RanThen(world, [(c, first)], later, (Completes, [trial.measured]), rest);
      }
    }
  }

  /** A sweep runs the planned trials in order, up to the first that does not complete. */
  lemma {:induction false} SweepRan(world: World, levels: seq<int>, repetitions: nat)
    ensures
      var r := Sweep(world, levels, repetitions);
      Ran(world, Planned(levels, repetitions), r.0, r.1)
  {
    if levels != [] {
      var here := Repeat(world, levels[0], 1, repetitions);
      RepeatRan(world, levels[0], 1, repetitions);
      SweepRan(world, levels[1..], repetitions);
      var plan := seq(repetitions, t requires 0 <= t < repetitions => (levels[0], t + 1));
      assert plan == seq(repetitions, t requires 0 <= t => (levels[0], 1 + t));
      hide Ran, Repeat;
      RanThen(world, plan, Planned(levels[1..], repetitions), here, Sweep(world, levels[1..], repetitions));
    }
  }

  /** Whether the suite passes with the reference outputs known so far. */
  predicate SuitePasses(world: World, reference: Option<map<string, string>>) {
    var observations := world.checks(reference);
    observations != [] && forall o :: o in observations ==> o.passed
  }

  /**
   * The evidence of an experiment: no correctness result unless the runtime opened and the checks ran;
   * no measurement unless they passed; and then the planned trials, as far as they completed.
   */
  lemma EvidenceMeans(def: Definition, world: World, reference: Option<map<string, string>>)
    ensures
      var e := Measured(def, world, reference);
      var checked := world.opening.Completes? && world.checking.Completes?;
      && e.correctness == (if checked then Some(CorrectnessResult(def.suite.fingerprint, world.checks(reference))) else None)
      && (!world.opening.Completes? ==> e.ending == world.opening)
      && (world.opening.Completes? && !world.checking.Completes? ==> e.ending == world.checking)
      && (checked && !SuitePasses(world, reference) ==> e.ending.Completes?)
      && (if checked && SuitePasses(world, reference)
          then Ran(world, Planned(def.policy.levels, def.policy.repetitions), e.ending, e.benchmarks)
          else e.benchmarks == [])
  {
    SweepRan(world, def.policy.levels, def.policy.repetitions);
    hide Ran, Sweep;
  }

  /** The operation was cancelled: while opening, checking, measuring or capturing the profile. */
  ghost predicate Cancelled(def: Definition, reference: Option<map<string, string>>, proposal: Proposal, world: World) {
    || world.opening.Stopped?
    || (world.opening.Completes? && world.checking.Stopped?)
    || (world.opening.Completes? && world.checking.Completes? && SuitePasses(world, reference)
        && CancelledLater(world, Planned(def.policy.levels, def.policy.repetitions), proposal))
  }

  ghost predicate CancelledLater(world: World, plan: seq<(int, int)>, proposal: Proposal) {
    CancelledInTrial(world, plan) || (AllRan(world, plan) && proposal.profile && world.profiling.Stopped?)
  }

  ghost predicate AllRan(world: World, plan: seq<(int, int)>) {
    forall k :: 0 <= k < |plan| ==> world.trials(plan[k].0, plan[k].1).ending.Completes?
  }

  ghost predicate CancelledInTrial(world: World, plan: seq<(int, int)>) {
    exists k :: 0 <= k < |plan| && world.trials(plan[k].0, plan[k].1).ending.Stopped? && AllRan(world, plan[..k])
  }

  lemma RanEnds(world: World, plan: seq<(int, int)>, ending: Ending, measured: seq<Benchmark>)
    requires Ran(world, plan, ending, measured)
    ensures ending.Completes? <==> AllRan(world, plan)
    ensures ending.Stopped? <==> CancelledInTrial(world, plan)
  {
    var n := |measured|;
    if n < |plan| {
      assert AllRan(world, plan[..n]);
      assert !world.trials(plan[n].0, plan[n].1).ending.Completes?;
      forall k | n < k < |plan| ensures !AllRan(world, plan[..k]) {
        assert plan[..k][n] == plan[n];
      }
    }
  }

  /**
   * How evaluating a proposal comes out: refused if the proposal is not valid; otherwise cut off
   * without a result if cleaning up is cancelled; unclean if it fails; cut off after recording if the
   * operation was cancelled and nobody asked for it; and it returns in all other cases.
   */
  lemma FateMeans(def: Definition, s: SearchState, proposal: Proposal, world: World)
    ensures
      var cancelled := Cancelled(def, s.reference, proposal, world);
      var fate := FateOf(def, s, proposal, world);
      && (fate.Refused? <==> !world.valid)
      && (fate == Cut(false) <==> world.valid && world.cleanup.Torn?)
      && (fate.Unclean? <==> world.valid && world.cleanup.Broken?)
      && (fate == Cut(true) <==> world.valid && world.cleanup.Cleaned? && cancelled && !world.stopRequested)
      && (fate.Returns? <==> world.valid && world.cleanup.Cleaned? && (!cancelled || world.stopRequested))
  {
    EvidenceMeans(def, world, s.reference);
    var e := Measured(def, world, s.reference);
    if world.opening.Completes? && world.checking.Completes? && SuitePasses(world, s.reference) {
      RanEnds(world, Planned(def.policy.levels, def.policy.repetitions), e.ending, e.benchmarks);
    }
    assert e.correctness.Some? ==> (e.correctness.value.Passed() <==> SuitePasses(world, s.reference));
    hide Measured, Ran, AllRan, CancelledInTrial, Planned;
  }
}

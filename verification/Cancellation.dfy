/**
 * A run cancelled while it captures a diagnostic profile: its closing record names no best, although
 * it has just recorded an accepted result.
 */
module Cancellation {
  import opened Common
  import opened Schemas
  import opened Verifier
  import opened Search
  import opened Journal
  import opened RunDirectory
  import opened Store
  import opened Experiment
  import opened Optimizer

  const MEASURED := Benchmark(1, 2, 1, true, 2, 2, 0, 0.0, true, 1.0, 1.0, 1.0, None, None)
  const PASSED := CorrectnessResult("suite", [Observation("case", false, true, None)])
  const DEFINITION :=
    Definition(Policy(1, 2, 2, [1], None, 0.0), Throughput, true, None, Suite("suite", ["case"], false))
  const PROPOSED := Proposal("baseline", "plan", true)
  const CHECKS: Option<map<string, string>> -> seq<Observation> := reference => PASSED.observations
  const TRIALS: (int, int) -> Trial := (c, t) => Trial(Completes, MEASURED)

  /** Everything succeeds, except that the controller is cancelled, unasked, while the profile is captured. */
  const INTERRUPTED_PROFILE := World(true, Completes, Completes, CHECKS, TRIALS, Stopped, Cleaned, false, 0)

  const CANCELLED := Script([Opening(false, PROPOSED, INTERRUPTED_PROFILE)], [], false, Cleaned, 0)

  lemma EvidenceGathered(reference: Option<map<string, string>>)
    ensures Measured(DEFINITION, INTERRUPTED_PROFILE, reference)
         == Evidence(Completes, Some(PASSED), [MEASURED, MEASURED])
  {
    var world := INTERRUPTED_PROFILE;
    assert world.trials(1, 1) == world.trials(1, 2) == Trial(Completes, MEASURED);
    assert world.checks(reference) == PASSED.observations;
    assert [MEASURED] + [MEASURED] == [MEASURED, MEASURED] && [MEASURED] + [] == [MEASURED];
    assert Repeat(world, 1, 3, 2) == (Completes, []);
    assert Repeat(world, 1, 2, 2) == (Completes, [MEASURED]);
    assert Repeat(world, 1, 1, 2) == (Completes, [MEASURED, MEASURED]);
    assert Sweep(world, [], 2) == (Completes, []);
    assert [1][1..] == [] && [MEASURED, MEASURED] + [] == [MEASURED, MEASURED];
    assert Sweep(world, [1], 2) == (Completes, [MEASURED, MEASURED]);
    assert PASSED.Passed();
  }

  lemma EvidenceQualifies(root: Root, baseline: Option<Benchmark>)
    ensures Qualifies(DEFINITION, root, Some(PASSED), [MEASURED, MEASURED], baseline)
  {
    var results := [MEASURED, MEASURED];
    assert PASSED.observations[0] in PASSED.observations;
    assert Observed(PASSED, "case", false);
    assert results[1..] == [MEASURED] && results[1..][1..] == [];
    forall c ensures At(results, c) == if c == 1 then results else [] {
      assert At([], c) == [];
      assert At([MEASURED], c) == if c == 1 then [MEASURED] else [];
      assert [MEASURED] + [MEASURED] == results;
    }
    assert 1 in DEFINITION.policy.levels;
    assert Invalid(DEFINITION, MEASURED) == [];
    assert Violations(DEFINITION, root, MEASURED, baseline) == [];
    assert CapacityPoint(DEFINITION, root, baseline, results, 1);
  }

  /** The evaluation is cut short after recording a result that is accepted. */
  lemma AcceptedAndCutShort(root: Root, r: ExperimentResult)
    ensures FateOf(DEFINITION, FRESH, PROPOSED, INTERRUPTED_PROFILE) == Cut(true)
    ensures Owed(DEFINITION, root, FRESH, 1, PROPOSED, INTERRUPTED_PROFILE, r) ==> r.decision.accepted
  {
    EvidenceGathered(None);
    var e := Measured(DEFINITION, INTERRUPTED_PROFILE, None);
    EvidenceQualifies(root, EffectiveMetric(DEFINITION, FRESH, e.benchmarks));
    hide Measured, Qualifies, Recommended, CapacityPoint, EffectiveMetric;
  }

  /** A controller that lives, on a new directory, cancelled during its first profile. */
  method CancelledRun<F(==, !new)>(codec: Codec<F>, root: Root) returns (store: ExperimentStore<F>)
    requires codec.RoundTrips()
    ensures
      var history := History(codec, store.disk);
      && |history| == 1 && history[0].decision.accepted
      && Fold(DEFINITION, history).best == Some(history[0])
      && store.disk.journal != []
      && PayloadOf(store.disk.journal[|store.disk.journal| - 1]) == SearchStopped("budget_expired", None)
  {
    store := new ExperimentStore(codec, Empty(), None);
    var optimizer := new Optimizer(DEFINITION, root, store);
    EmptyIsDurable(DEFINITION, root, codec);
    NothingRecorded(codec);
    var o;
    ghost var course, searched;
    o, course, searched := optimizer.Run(CANCELLED);
    hide Searched, Owed, FateOf, Fold, Known;
    OneCourse(root, course, searched);
    OldBestNamed(course.tried, course.cut);
  }

  lemma OneCourse(root: Root, course: Course, searched: Outcome<string>)
    requires Searched(DEFINITION, root, [], CANCELLED, course, searched) && !searched.Crashed?
    ensures searched.Cancelled? && course.cut.Some?
    ensures |course.tried| == 1 && course.tried[0].decision.accepted && [] + course.tried + course.found == course.tried
  {
    assert Fold(DEFINITION, []) == FRESH;
    hide BaselinesTried, Owed, FateOf, Fold, Explored;
    OneResult(root, course.tried, course.first, if course.first.Cancelled? then course.cut else None);
  }

  lemma OldBestNamed(history: seq<ExperimentResult>, cut: Option<Evaluation>)
    requires |history| == 1 && history[0].decision.accepted && cut.Some?
    ensures Fold(DEFINITION, history).best == Some(history[0])
    ensures IdOf(Fold(DEFINITION, Known(history, cut)).best) == None
  {
    AbsorbBest(DEFINITION, [], history[0]);
    assert [] + [history[0]] == history && history[..0] == [];
  }

  lemma NothingRecorded<F(!new)>(codec: Codec<F>)
    ensures RecoveredHistory(codec, Empty()) == []
    ensures Fold(DEFINITION, []) == FRESH
  {
    assert Log(Empty<F>().journal) == [];
  }

  /** The baselines can only have gone one way. */
  lemma OneResult(root: Root, tried: seq<ExperimentResult>, first: Outcome<()>, cut: Option<Evaluation>)
    requires BaselinesTried(DEFINITION, root, [], CANCELLED.baselines, tried, first, cut) && !first.Crashed?
    ensures first.Cancelled? && cut.Some? && |tried| == 1 && tried[0].decision.accepted
  {
    var openings := CANCELLED.baselines;
    assert |openings| == 1 && openings[0] == Opening(false, PROPOSED, INTERRUPTED_PROFILE);
    assert tried[..0] == [] && [] + tried[..0] == [];
    assert StateAt(DEFINITION, [], tried, 0) == FRESH;
    AcceptedAndCutShort(root, if tried == [] then InterruptedResult(1, PROPOSED, 0) else tried[0]);
    assert FateAt(DEFINITION, [], openings, tried, 0) == Cut(true);
    assert Due(DEFINITION, [], openings, tried, 0);
    if tried != [] {
      assert TriedAt(DEFINITION, root, [], openings, tried, 0);
    }
    hide FateOf, Owed, Fold, StateAt;
  }
}

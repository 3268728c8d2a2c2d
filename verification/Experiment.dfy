/**
 * One experiment as the outside world plays it, the result the controller owes it, and the disk
 * steps of running and finishing it.
 */
module Experiment {
  import opened Common
  import opened Schemas
  import opened Verifier
  import opened Search
  import opened Journal
  import opened RunDirectory
  import opened Store

  /** How an awaited operation ends: normally, by an exception, at the search deadline, or cancelled. */
  datatype Ending = Completes | Fails(message: string) | Expires | Stopped

  /** Cleanup finishes, fails with an exception, or is itself cancelled. */
  datatype Cleanup = Cleaned | Broken(message: string) | Torn

  datatype Trial = Trial(ending: Ending, measured: Benchmark)

  /** Everything one experiment meets: `checks` are the correctness observations given the reference outputs. */
  datatype World = World(
    valid: bool, opening: Ending, checking: Ending, checks: Option<map<string, string>> -> seq<Observation>,
    trials: (int, int) -> Trial, profiling: Ending, cleanup: Cleanup, stopRequested: bool, at: int)

  /** What was measured before the operation ended. */
  datatype Evidence = Evidence(ending: Ending, correctness: Option<CorrectnessResult>, benchmarks: seq<Benchmark>)

  // ------------------------------------------------------------------ the measurements

  /** Trials `first` to `last` at one level. */
  function Repeat(world: World, c: int, first: int, last: int): (Ending, seq<Benchmark>)
    decreases last - first
  {
    if first > last then (Completes, [])
    else
      var trial := world.trials(c, first);
      if !trial.ending.Completes? then (trial.ending, [])
      else
        var rest := Repeat(world, c, first + 1, last);
        (rest.0, [trial.measured] + rest.1)
  }

  /** Every repetition at every level, in order, up to the first that does not complete. */
  function Sweep(world: World, levels: seq<int>, repetitions: nat): (Ending, seq<Benchmark>) {
    if levels == [] then (Completes, [])
    else
      var here := Repeat(world, levels[0], 1, repetitions);
      if !here.0.Completes? then here
      else
        var rest := Sweep(world, levels[1..], repetitions);
        (rest.0, here.1 + rest.1)
  }

  function Measured(def: Definition, world: World, reference: Option<map<string, string>>): Evidence {
    if !world.opening.Completes? then Evidence(world.opening, None, [])
    else if !world.checking.Completes? then Evidence(world.checking, None, [])
    else
      var correctness := CorrectnessResult(def.suite.fingerprint, world.checks(reference));
      if !correctness.Passed() then Evidence(Completes, Some(correctness), [])
      else
        var sweep := Sweep(world, def.policy.levels, def.policy.repetitions);
        Evidence(sweep.0, Some(correctness), sweep.1)
  }

  /** Trials before `t` all completed and measured `done`. */
  predicate RanUpTo(world: World, c: int, t: int, last: int, done: seq<Benchmark>) {
    var whole, rest := Repeat(world, c, 1, last), Repeat(world, c, t, last);
    whole.0 == rest.0 && whole.1 == done + rest.1
  }

  lemma RanNext(world: World, c: int, t: int, last: int, done: seq<Benchmark>)
    ensures RanUpTo(world, c, 1, last, [])
    ensures RanUpTo(world, c, t, last, done) ==>
              var trial := world.trials(c, t);
              if t > last then Repeat(world, c, 1, last) == (Completes, done)
              else if trial.ending.Completes? then RanUpTo(world, c, t + 1, last, done + [trial.measured])
              else Repeat(world, c, 1, last) == (trial.ending, done)
  {
    assert done + [] == done;
  }

  /** The levels before `i` were swept completely and measured `done`. */
  predicate SweptUpTo(world: World, levels: seq<int>, repetitions: nat, i: nat, done: seq<Benchmark>)
    requires i <= |levels|
  {
    var whole, rest := Sweep(world, levels, repetitions), Sweep(world, levels[i..], repetitions);
    whole.0 == rest.0 && whole.1 == done + rest.1
  }

  lemma SweptNext(world: World, levels: seq<int>, repetitions: nat, i: nat, done: seq<Benchmark>)
    requires i <= |levels|
    ensures SweptUpTo(world, levels, repetitions, 0, [])
    ensures SweptUpTo(world, levels, repetitions, i, done) ==>
              if i == |levels| then Sweep(world, levels, repetitions) == (Completes, done)
              else
                var here := Repeat(world, levels[i], 1, repetitions);
                if here.0.Completes? then SweptUpTo(world, levels, repetitions, i + 1, done + here.1)
                else Sweep(world, levels, repetitions) == (here.0, done + here.1)
  {
    assert levels[0..] == levels && done + [] == done;
    if i < |levels| {
      assert levels[i..][1..] == levels[i + 1..] && levels[i..][0] == levels[i];
    }
  }

  lemma {:induction false} RepeatLength(world: World, c: int, first: int, last: int)
    requires Repeat(world, c, first, last).0.Completes? && first <= last + 1
    ensures |Repeat(world, c, first, last).1| == last - first + 1
    decreases last - first
  {
    if first <= last {
      RepeatLength(world, c, first + 1, last);
    }
  }

  /** A sweep that completes made every trial the policy asks for. */
  lemma {:induction false} SweepLength(world: World, levels: seq<int>, repetitions: nat)
    requires Sweep(world, levels, repetitions).0.Completes?
    ensures |Sweep(world, levels, repetitions).1| == |levels| * repetitions
  {
    if levels != [] {
      RepeatLength(world, levels[0], 1, repetitions);
      SweepLength(world, levels[1..], repetitions);
      assert |levels| * repetitions == (|levels| - 1) * repetitions + repetitions;
    }
  }

  // ------------------------------------------------------------------ the result that is owed

  /** What stands once measuring is over: a status, and the verifier's decision where one was reached. */
  ghost predicate Verdict(def: Definition, root: Root, s: SearchState, e: Evidence, status: Status, d: Decision) {
    match e.ending
    case Completes =>
      if e.correctness.Some? && e.correctness.value.Passed()
      then
        && status == (if d.eligible then Verified else Rejected)
        && Judged(def, root, e.correctness, e.benchmarks, BestDecision(s), EffectiveMetric(def, s, e.benchmarks), d)
      else status == Rejected && d == Ineligible([CorrectnessRejected])
    case Fails(_) => status == Failed
    case _ => status == Interrupted
  }

  /** The result recorded for a proposal, when cleanup was not itself cancelled. */
  ghost predicate Owed(
      def: Definition, root: Root, s: SearchState, id: int, proposal: Proposal, world: World, r: ExperimentResult)
  {
    var e := Measured(def, world, s.reference);
    && r.id == id && r.proposal == proposal
    && r.correctness == e.correctness && r.benchmarks == e.benchmarks
    && if world.cleanup.Broken? then r.status == Failed && !r.decision.eligible && !r.decision.accepted
       else
         && Verdict(def, root, s, e, r.status, r.decision)
         && (r.status == Failed || r.status == Interrupted ==> !r.decision.eligible && !r.decision.accepted)
  }

  /** The operation's own ending; a diagnostic profile that raises is only noted. */
  function EndingOf(def: Definition, s: SearchState, proposal: Proposal, world: World): Ending {
    var e := Measured(def, world, s.reference);
    if !e.ending.Completes? then e.ending
    else if e.correctness.Some? && e.correctness.value.Passed() && proposal.profile && !world.profiling.Fails?
    then world.profiling
    else Completes
  }

  /** How evaluating a proposal comes out, short of the controller's death; `Cut` is a cancellation that propagates. */
  datatype Fate = Refused | Unclean | Cut(recorded: bool) | Returns

  function FateOf(def: Definition, s: SearchState, proposal: Proposal, world: World): Fate {
    if !world.valid then Refused
    else if world.cleanup.Torn? then Cut(false)
    else if world.cleanup.Broken? then Unclean
    else if EndingOf(def, s, proposal, world).Stopped? && !world.stopRequested then Cut(true)
    else Returns
  }

  datatype Evaluation = Evaluation(proposal: Proposal, world: World)

  /** The last recorded result is that of an evaluation cancelled after it was recorded. */
  ghost predicate CutShort(def: Definition, root: Root, history: seq<ExperimentResult>, last: Evaluation) {
    && history != []
    && var n := |history| - 1;
       var s := Fold(def, history[..n]);
       && Owed(def, root, s, |history|, last.proposal, last.world, history[n])
       && FateOf(def, s, last.proposal, last.world) == Cut(true)
  }

  /** A recorded result is exactly as trustworthy as its evidence: whatever went wrong, acceptance is earned. */
  lemma OwedIsWellJudged(
      def: Definition, root: Root, prior: seq<ExperimentResult>, id: int, proposal: Proposal, world: World,
      r: ExperimentResult)
    requires Owed(def, root, Fold(def, prior), id, proposal, world, r)
    ensures WellJudged(def, root, prior, r)
    ensures r.decision.accepted ==> world.cleanup.Cleaned? || world.cleanup.Torn?
  {
    hide Recommended, CapacityPoint, Qualifies, Measured, Fold, EffectiveMetric;
  }

  // ------------------------------------------------------------------ the search state it leads to

  /** What measuring leaves in memory: a provisional baseline measurement may already be set. */
  function Provisional(def: Definition, s: SearchState, e: Evidence): SearchState {
    if e.ending.Completes? && e.correctness.Some? && e.correctness.value.Passed()
    then s.(baselineMetric := EffectiveMetric(def, s, e.benchmarks)) else s
  }

  /** Where measuring ends: what stands in memory, and the status and decision so far. */
  ghost predicate Concluded(
      def: Definition, root: Root, s: SearchState, proposal: Proposal, world: World, after: SearchState,
      ending: Ending, e: Evidence, status: Status, d: Decision)
  {
    && e == Measured(def, world, s.reference) && ending == EndingOf(def, s, proposal, world)
    && after == Provisional(def, s, e)
    && (if e.ending.Completes? then Verdict(def, root, s, e, status, d) else status == Failed && d == Ineligible([NotCompleted]))
  }

  /** The result assembled from a concluded measurement once the runtime has been cleaned up, or not. */
  function Assembled(
      id: int, proposal: Proposal, at: int, e: Evidence, ending: Ending, cleanup: Cleanup, status: Status, d: Decision)
      : ExperimentResult
  {
    var stands := status == Verified || status == Rejected;
    var interrupted := !stands && (ending.Expires? || ending.Stopped?);
    var error :=
      if cleanup.Broken? then Some("runtime cleanup failed: " + cleanup.message)
      else if ending.Fails? then Some(ending.message)
      else if interrupted then Some("stopped before verification completed") else None;
    var final := if cleanup.Broken? then Failed else if interrupted then Interrupted else status;
    var decision :=
      if final == Failed || final == Interrupted
      then Ineligible([if error.Some? then RunFailed(error.value) else NotCompleted]) else d;
    ExperimentResult(id, proposal, final, at, e.correctness, e.benchmarks, decision, error)
  }

  /** Whatever exception, deadline, cancellation or cleanup failure ended it, the assembled result is the one owed. */
  lemma AssembledIsOwed(
      def: Definition, root: Root, s: SearchState, id: int, proposal: Proposal, world: World, after: SearchState,
      ending: Ending, e: Evidence, status: Status, d: Decision)
    requires Concluded(def, root, s, proposal, world, after, ending, e, status, d)
    ensures Owed(def, root, s, id, proposal, world, Assembled(id, proposal, world.at, e, ending, world.cleanup, status, d))
  {
    hide Judged, Measured, EffectiveMetric, Provisional;
  }

  lemma FullSweep(def: Definition, world: World, reference: Option<map<string, string>>)
    ensures
      var e := Measured(def, world, reference);
      e.ending.Completes? && e.correctness.Some? && e.correctness.value.Passed() ==>
        |e.benchmarks| == ExpectedTrials(def)
  {
    var e := Measured(def, world, reference);
    if e.ending.Completes? && e.correctness.Some? && e.correctness.value.Passed() {
      SweepLength(world, def.policy.levels, def.policy.repetitions);
    }
  }

  /**
   * The provisional baseline measurement is always confirmed by the result that follows, so taking
   * note of the result leads to the same state as if it had never been set early.
   */
  lemma ProvisionalConfirmed(
      def: Definition, root: Root, s: SearchState, id: int, proposal: Proposal, world: World, r: ExperimentResult)
    requires Owed(def, root, s, id, proposal, world, r) && !world.cleanup.Broken?
    requires s.baseline.None? == s.baselineMetric.None?
    ensures Remember(def, Provisional(def, s, Measured(def, world, s.reference)), r) == Remember(def, s, r)
  {
    FullSweep(def, world, s.reference);
    hide Judged, Measured, AllValid, References, ExpectedTrials;
  }

  lemma {:induction false} BaselineWithMetric(def: Definition, history: seq<ExperimentResult>)
    ensures Fold(def, history).baseline.None? == Fold(def, history).baselineMetric.None?
  {
    hide AllValid, References;
    if history != [] {
      BaselineWithMetric(def, history[..|history| - 1]);
    }
  }

  /** The record of an experiment the controller did not live to finish. */
  function InterruptedResult(id: int, proposal: Proposal, at: int): ExperimentResult {
    ExperimentResult(id, proposal, Interrupted, at, None, [], Ineligible([NotCompleted]), Some("interrupted previous run"))
  }

  /** An interruption changes nothing in the search state. */
  lemma InterruptionIsNeutral(def: Definition, history: seq<ExperimentResult>, id: int, proposal: Proposal, at: int)
    ensures Fold(def, history + [InterruptedResult(id, proposal, at)]) == Fold(def, history)
  {
    FoldNext(def, history, InterruptedResult(id, proposal, at));
  }

  // ------------------------------------------------------------------ the disk steps

  ghost predicate Idle<F(!new)>(d: Disk<F>) {
    FinishCount(Log(d.journal)) == StartCount(Log(d.journal))
  }

  /** Experiment `id` was started for `proposal`, is the last one, and has no result file yet. */
  ghost predicate Underway<F(!new)>(codec: Codec<F>, d: Disk<F>, id: int, proposal: Proposal) {
    var log := Log(d.journal);
    && FinishCount(log) < StartCount(log) == id
    && |StartsOf(log, id)| == 1 && codec.proposal(StartsOf(log, id)[0]) == codec.proposal(proposal)
    && id !in d.results
  }

  lemma NoteStep<F(!new)>(def: Definition, root: Root, codec: Codec<F>, d: Disk<F>, at: int, payload: Payload)
    requires Durable(def, root, codec, d) && codec.RoundTrips()
    requires !payload.Started? && !payload.Finished? && !payload.AgentTurn?
    ensures
      var next := Appended(codec, d, at, payload);
      && Reaches(def, root, codec, d, next) && Durable(def, root, codec, next)
      && History(codec, next) == History(codec, d)
      && (Idle(d) ==> Idle(next))
  {
    var next := Appended(codec, d, at, payload);
    assert Enabled(def, root, codec, d, Note(at, payload));
    ReachesItself(def, root, codec, d);
    ReachesNext(def, root, codec, d, d, Note(at, payload));
    ActionKeeps(def, root, codec, d, Note(at, payload));
    LogNext(codec.stamp, d.journal, at, payload);
    CountsNext(Log(d.journal), payload);
    RecordedNext(codec, Log(d.journal), payload, d.results);
    hide Enabled, Log, Chained, FilesStored, ArtifactsStored, Reaches, WellJudgedHistory, PendingJudged;
  }

  lemma BeginStep<F(!new)>(def: Definition, root: Root, codec: Codec<F>, d: Disk<F>, at: int, proposal: Proposal)
    requires Durable(def, root, codec, d) && codec.RoundTrips() && Idle(d)
    ensures HighestId(Log(d.journal)) == |History(codec, d)|
    ensures
      var id := |History(codec, d)| + 1;
      var next := Appended(codec, d, at, Started(id, proposal));
      && Measuring(def, root, codec, d, next, id, proposal)
      && MeasuredUpTo(next.artifacts, id, 0, 0)
  {
    var log := Log(d.journal);
    HighestIsCount(log);
    RecordedIds(codec, log, d.results);
    var id := StartCount(log) + 1;
    var p := Started(id, proposal);
    assert Enabled(def, root, codec, d, Action.Begin(at, proposal));
    ReachesItself(def, root, codec, d);
    ReachesNext(def, root, codec, d, d, Action.Begin(at, proposal));
    ActionKeeps(def, root, codec, d, Action.Begin(at, proposal));
    LogNext(codec.stamp, d.journal, at, p);
    CountsNext(log, p);
    RecordedNext(codec, log, p, d.results);
    NotStartedYet(log, id);
    StartsNext(log, p, id);
    FilesBounded(codec, log, d.results);
    NothingMeasured(codec, log, d.artifacts, id);
    hide Enabled, Log, Chained, FilesStored, ArtifactsStored, Reaches, WellJudgedHistory, PendingJudged, StartsOf, MeasuredUpTo;
  }

  /** Trials of experiment `id` saved so far: those at levels below `c`, and up to `trial` at level `c`. */
  ghost predicate MeasuredUpTo<F(!new)>(artifacts: map<ArtifactKey, F>, id: int, c: int, trial: int) {
    forall key: ArtifactKey :: key in artifacts && key.BenchmarkFile? && key.experiment == id ==>
      key.concurrency < c || (key.concurrency == c && key.trial <= trial)
  }

  lemma NothingMeasured<F(!new)>(codec: Codec<F>, log: seq<Payload>, artifacts: map<ArtifactKey, F>, id: int)
    requires ArtifactsStored(codec, log, artifacts) && id > StartCount(log)
    ensures MeasuredUpTo(artifacts, id, 0, 0)
  {
    assert forall key :: key in artifacts ==> KeyFits(log, key);
  }

  /** Since `before`, the experiment underway has only saved trials. */
  ghost predicate Measuring<F(!new)>(
      def: Definition, root: Root, codec: Codec<F>, before: Disk<F>, d: Disk<F>, id: int, proposal: Proposal)
  {
    && Reaches(def, root, codec, before, d) && Durable(def, root, codec, d)
    && Underway(codec, d, id, proposal)
    && History(codec, d) == History(codec, before)
  }

  /** Saving one more trial. */
  lemma MeasureStep<F(!new)>(
      def: Definition, root: Root, codec: Codec<F>, before: Disk<F>, d: Disk<F>, id: int, proposal: Proposal,
      c: int, trial: int, text: F)
    requires Measuring(def, root, codec, before, d, id, proposal) && codec.RoundTrips()
    requires Free(d.artifacts, BenchmarkFile(id, c, trial), text)
    ensures Measuring(def, root, codec, before, Saved(d, BenchmarkFile(id, c, trial), text), id, proposal)
  {
    assert Enabled(def, root, codec, d, Measure(c, trial, text));
    ReachesNext(def, root, codec, before, d, Measure(c, trial, text));
    ActionKeeps(def, root, codec, d, Measure(c, trial, text));
    hide Enabled, Log, Reaches, Durable, StartsOf;
  }

  /** A properly judged result of the experiment underway is never refused, at either step of the commit. */
  lemma FinishStep<F(!new)>(
      def: Definition, root: Root, codec: Codec<F>, d: Disk<F>, at: int, r: ExperimentResult)
    requires Durable(def, root, codec, d) && codec.RoundTrips()
    requires
      var log := Log(d.journal);
      && FinishCount(log) < StartCount(log) == r.id
      && |StartsOf(log, r.id)| == 1 && codec.proposal(StartsOf(log, r.id)[0]) == codec.proposal(r.proposal)
      && Free(d.results, r.id, codec.encode(r))
    requires WellJudged(def, root, History(codec, d), r)
    ensures Refusal(codec, d, r).None?
    ensures
      var written := Written(codec, d, r);
      Reaches(def, root, codec, d, written) && Durable(def, root, codec, written)
    ensures
      var done := Appended(codec, Written(codec, d, r), at, Finishing(codec, r));
      && Reaches(def, root, codec, d, done) && Durable(def, root, codec, done)
      && Idle(done) && History(codec, done) == History(codec, d) + [r]
  {
    var log := Log(d.journal);
    var written := Written(codec, d, r);
    FinishedUpTo(log, r.id);
    AtMostOnePending(log);
    assert Enabled(def, root, codec, d, Action.Write(r));
    ReachesItself(def, root, codec, d);
    ReachesNext(def, root, codec, d, d, Action.Write(r));
    ActionKeeps(def, root, codec, d, Action.Write(r));
    hide Enabled, Log, Chained, FilesStored, ArtifactsStored, Reaches, WellJudgedHistory, PendingJudged, StartsOf, WellJudged;
    assert written == Apply(codec, d, Action.Write(r));
    CommitStep(def, root, codec, d, written, at, r);
  }

  lemma CommitStep<F(!new)>(def: Definition, root: Root, codec: Codec<F>, d: Disk<F>, written: Disk<F>, at: int, r: ExperimentResult)
    requires Reaches(def, root, codec, d, written) && Durable(def, root, codec, written) && codec.RoundTrips()
    requires written.journal == d.journal && r.id in written.results && written.results[r.id] == codec.encode(r)
    requires Recorded(codec, Log(d.journal), d.results).Some? && Kept(d.results, written.results)
    requires
      var log := Log(d.journal);
      FinishCount(log) < StartCount(log) == r.id && StartCount(log) <= FinishCount(log) + 1
    ensures
      var done := Appended(codec, written, at, Finishing(codec, r));
      && Reaches(def, root, codec, d, done) && Durable(def, root, codec, done)
      && Idle(done) && History(codec, done) == History(codec, d) + [r]
  {
    var log := Log(d.journal);
    var p := Finishing(codec, r);
    assert Enabled(def, root, codec, written, Action.Commit(at));
    ReachesNext(def, root, codec, d, written, Action.Commit(at));
    ActionKeeps(def, root, codec, written, Action.Commit(at));
    LogNext(codec.stamp, d.journal, at, p);
    CountsNext(log, p);
    RecordedKept(codec, log, d.results, written.results);
    RecordedNext(codec, log, p, written.results);
    assert ReadResult(codec, written.results, p.id, p.sha) == Some(r);
    hide Enabled, Log, Chained, Reaches, Consistent, Recorded;
  }

  /** Finishing the experiment underway with the result it is owed. */
  lemma FinishExperiment<F(!new)>(
      def: Definition, root: Root, codec: Codec<F>, before: Disk<F>, d: Disk<F>, id: int, proposal: Proposal, world: World,
      r: ExperimentResult)
    requires Measuring(def, root, codec, before, d, id, proposal) && codec.RoundTrips()
    requires Owed(def, root, Fold(def, History(codec, before)), id, proposal, world, r)
    ensures Refusal(codec, d, r).None?
    ensures
      var written := Written(codec, d, r);
      Reaches(def, root, codec, before, written) && Durable(def, root, codec, written)
    ensures
      var done := Appended(codec, Written(codec, d, r), world.at, Finishing(codec, r));
      && Reaches(def, root, codec, before, done) && Durable(def, root, codec, done)
      && Idle(done) && History(codec, done) == History(codec, before) + [r]
  {
    OwedIsWellJudged(def, root, History(codec, before), id, proposal, world, r);
    assert r.id == id && r.proposal == proposal;
    hide Owed, Durable, Reaches, WellJudged, History, Refusal, StartsOf, Log;
    FinishStep(def, root, codec, d, world.at, r);
    ReachesOnwards(def, root, codec, before, d, Written(codec, d, r));
    ReachesOnwards(def, root, codec, before, d, Appended(codec, Written(codec, d, r), world.at, Finishing(codec, r)));
  }

  /** The search state after a finished experiment, computed from what measuring left in memory. */
  lemma StateFollows(
      def: Definition, root: Root, prior: seq<ExperimentResult>, id: int, proposal: Proposal, world: World,
      r: ExperimentResult)
    requires Owed(def, root, Fold(def, prior), id, proposal, world, r) && !world.cleanup.Broken?
    ensures
      var s := Fold(def, prior);
      var t := Remember(def, Provisional(def, s, Measured(def, world, s.reference)), r);
      Fold(def, prior + [r]) == if r.decision.accepted then t.(best := Some(r)) else t
  {
    BaselineWithMetric(def, prior);
    ProvisionalConfirmed(def, root, Fold(def, prior), id, proposal, world, r);
    FoldNext(def, prior, r);
    hide Owed, Fold, Remember, Provisional, Measured;
  }

  // ------------------------------------------------------------------ recovery

  /** The result recovery records for a pending experiment: the one already on disk, or an interruption. */
  function ToFinish<F(==, !new)>(codec: Codec<F>, d: Disk<F>, line: Line): Option<ExperimentResult> {
    match PayloadOf(line)
    case Started(id, proposal) =>
      if id in d.results then codec.decode(d.results[id])
      else Some(InterruptedResult(id, proposal, if line.Record? then line.event.at else 0))
    case _ => None
  }

  /** The history once recovery is done with what was pending. */
  function RecoveredHistory<F(==, !new)>(codec: Codec<F>, d: Disk<F>): seq<ExperimentResult> {
    var pending := Unfinished(d.journal, Log(d.journal));
    if pending == [] then History(codec, d)
    else
      var r := ToFinish(codec, d, pending[0]);
      History(codec, d) + (if r.Some? then [r.value] else [])
  }

  lemma IdleNothingPending<F(!new)>(def: Definition, root: Root, codec: Codec<F>, d: Disk<F>)
    requires Durable(def, root, codec, d)
    ensures Idle(d) <==> Unfinished(d.journal, Log(d.journal)) == []
    ensures !Idle(d) ==> |Unfinished(d.journal, Log(d.journal))| == 1
  {
    AtMostOnePending(Log(d.journal));
    PendingIsLast(d.journal, Log(d.journal));
  }

  /** The one pending experiment has a result recovery may record without being refused. */
  lemma PendingResult<F(!new)>(def: Definition, root: Root, codec: Codec<F>, d: Disk<F>)
    requires Durable(def, root, codec, d) && codec.RoundTrips() && !Idle(d)
    ensures
      var pending := Unfinished(d.journal, Log(d.journal));
      && |pending| == 1 && ToFinish(codec, d, pending[0]).Some?
      && var r := ToFinish(codec, d, pending[0]).value;
         var log := Log(d.journal);
         && FinishCount(log) < StartCount(log) == r.id
         && |StartsOf(log, r.id)| == 1 && codec.proposal(StartsOf(log, r.id)[0]) == codec.proposal(r.proposal)
         && Free(d.results, r.id, codec.encode(r))
         && WellJudged(def, root, History(codec, d), r)
  {
    var log := Log(d.journal);
    AtMostOnePending(log);
    PendingIsLast(d.journal, log);
    var line := Unfinished(d.journal, log)[0];
    var id := StartCount(log);
    hide Log, Chained, ArtifactsStored, WellJudgedHistory, Unfinished, StartsOf, Recorded;
    if id in d.results {
      assert Stored(codec, log, id, d.results[id]);
    } else {
      InterruptedIsWellJudged(def, root, History(codec, d), id, PayloadOf(line).proposal, if line.Record? then line.event.at else 0);
    }
    hide WellJudged;
  }

  lemma InterruptedIsWellJudged(
      def: Definition, root: Root, prior: seq<ExperimentResult>, id: int, proposal: Proposal, at: int)
    ensures WellJudged(def, root, prior, InterruptedResult(id, proposal, at))
  {
  }

  /**
   * Resuming: an experiment whose result had reached the disk counts as if the controller had
   * lived to journal it; one whose result had not leaves the search state untouched.
   */
  lemma ResumeEquivalence<F(!new)>(def: Definition, root: Root, codec: Codec<F>, d: Disk<F>)
    requires Durable(def, root, codec, d) && codec.RoundTrips()
    ensures
      var log, prior := Log(d.journal), History(codec, d);
      var resumed := Fold(def, RecoveredHistory(codec, d));
      if !Idle(d) && StartCount(log) in d.results
      then
        && codec.decode(d.results[StartCount(log)]).Some?
        && resumed == Absorb(def, Fold(def, prior), codec.decode(d.results[StartCount(log)]).value)
      else resumed == Fold(def, prior)
  {
    IdleNothingPending(def, root, codec, d);
    if !Idle(d) {
      PendingResult(def, root, codec, d);
      var line := Unfinished(d.journal, Log(d.journal))[0];
      var r := ToFinish(codec, d, line).value;
      FoldNext(def, History(codec, d), r);
      if r.id !in d.results {
        InterruptionIsNeutral(def, History(codec, d), r.id, r.proposal, r.stamp);
      }
    }
    hide Durable, History, Fold, Absorb, WellJudged, StartsOf, Unfinished, Log;
  }

  // ------------------------------------------------------------------ planning turns

  /** A transcript that no earlier turn left behind is saved and then journalled. */
  lemma TurnStep<F(!new)>(def: Definition, root: Root, codec: Codec<F>, d: Disk<F>, at: int, text: F, submitted: bool)
    requires Durable(def, root, codec, d) && codec.RoundTrips() && Idle(d)
    requires Free(d.artifacts, NextTurn(Log(d.journal)), text)
    ensures
      var saved := Saved(d, NextTurn(Log(d.journal)), text);
      Reaches(def, root, codec, d, saved) && Durable(def, root, codec, saved)
    ensures
      var key := NextTurn(Log(d.journal));
      var next := Appended(codec, Saved(d, key, text), at, AgentTurn(key, codec.sha(text), submitted));
      && Reaches(def, root, codec, d, next) && Durable(def, root, codec, next)
      && Idle(next) && History(codec, next) == History(codec, d)
  {
    var log := Log(d.journal);
    var key := NextTurn(log);
    var saved, p := Saved(d, key, text), AgentTurn(key, codec.sha(text), submitted);
    assert Enabled(def, root, codec, d, Transcript(text));
    ReachesItself(def, root, codec, d);
    ReachesNext(def, root, codec, d, d, Transcript(text));
    ActionKeeps(def, root, codec, d, Transcript(text));
    assert Enabled(def, root, codec, saved, Turn(at, text, submitted));
    ReachesNext(def, root, codec, d, saved, Turn(at, text, submitted));
    ActionKeeps(def, root, codec, saved, Turn(at, text, submitted));
    LogNext(codec.stamp, d.journal, at, p);
    CountsNext(log, p);
    RecordedNext(codec, log, p, d.results);
    hide Enabled, Log, Chained, FilesStored, ArtifactsStored, Reaches, WellJudgedHistory, PendingJudged;
  }
}

/** The search controller: recovery, evaluation on every exception path, and the sequencing of a run. */
module Optimizer {
  import opened Common
  import opened Schemas
  import opened Verifier
  import opened Search
  import opened Journal
  import opened RunDirectory
  import opened Store
  import opened Experiment

  /** One planning turn of the agent: how it ends, what it submitted, and its transcript. */
  datatype PlanningTurn = PlanningTurn(ending: Ending, stopRequested: bool, submitted: Option<Proposal>, text: string, at: int)

  /** What the controller meets each time it comes round to plan another experiment. */
  datatype Round = Round(expired: bool, stopped: bool, plateau: bool, turn: PlanningTurn, world: World)

  /** The deadline or a stop request, seen before a baseline; then that baseline's experiment. */
  datatype Opening = Opening(halted: bool, proposal: Proposal, world: World)

  /** A whole run as the outside world plays it. The budget has expired by the time the rounds run out. */
  datatype Script = Script(baselines: seq<Opening>, rounds: seq<Round>, stopped: bool, closing: Cleanup, at: int)

  /**
   * How a search went: the baselines' results and how trying them ended, then the rounds played in full,
   * the results found in them, how exploring ended, and an evaluation cut short after being recorded.
   */
  datatype Course = Course(
    tried: seq<ExperimentResult>, first: Outcome<()>, played: nat, found: seq<ExperimentResult>,
    explored: Outcome<string>, cut: Option<Evaluation>)

  datatype SearchOutcome = SearchOutcome(
    best: Option<ExperimentResult>, baseline: Option<ExperimentResult>, reason: string, experiments: nat)

  /** Rounds `end - count` up to `end` all ended their turn without a proposal. */
  predicate EmptyRun(rounds: seq<Round>, end: int, count: nat) {
    && count <= end <= |rounds|
    && forall k :: end - count <= k < end ==> rounds[k].turn.ending.Completes? && rounds[k].turn.submitted.None?
  }

  function IdOf(best: Option<ExperimentResult>): Option<int> {
    if best.Some? then Some(best.value.id) else None
  }

  lemma {:induction false} BestIsRecorded(def: Definition, history: seq<ExperimentResult>)
    ensures Fold(def, history).best.Some? ==> Fold(def, history).best.value in history
    decreases |history|
  {
    if history != [] {
      var n := |history| - 1;
      BestIsRecorded(def, history[..n]);
      AbsorbBest(def, history[..n], history[n]);
      assert history == history[..n] + [history[n]];
    }
  }

  /** The history the memory is in step with when a search is cancelled: without the result of an evaluation it cut short. */
  function Known(history: seq<ExperimentResult>, cut: Option<Evaluation>): seq<ExperimentResult> {
    if cut.Some? && history != [] then history[..|history| - 1] else history
  }

  /**
   * The best before a cancelled evaluation is the recorded best if and only if nothing was cut short
   * after being recorded, or what was cut short was not accepted.
   */
  lemma CancelledNamesOldBest(def: Definition, history: seq<ExperimentResult>, cut: Option<Evaluation>)
    requires forall i :: 0 <= i < |history| ==> history[i].id == i + 1
    requires cut.Some? ==> history != []
    ensures
      IdOf(Fold(def, Known(history, cut)).best) == IdOf(Fold(def, history).best) <==>
        (cut.Some? ==> !history[|history| - 1].decision.accepted)
  {
    hide Fold;
    if cut.Some? {
      var n := |history| - 1;
      BestIsRecorded(def, history[..n]);
      AbsorbBest(def, history[..n], history[n]);
      assert history == history[..n] + [history[n]];
    }
  }

  lemma NamedBest<F(!new)>(def: Definition, root: Root, codec: Codec<F>, d: Disk<F>, cut: Option<Evaluation>)
    requires Durable(def, root, codec, d) && (cut.Some? ==> History(codec, d) != [])
    ensures
      var history := History(codec, d);
      IdOf(Fold(def, Known(history, cut)).best) == IdOf(Fold(def, history).best) <==>
        (cut.Some? ==> !history[|history| - 1].decision.accepted)
  {
    RecordedIds(codec, Log(d.journal), d.results);
    CancelledNamesOldBest(def, History(codec, d), cut);
    hide Fold, Known, Recorded;
  }

  lemma CutShortSome(def: Definition, root: Root, history: seq<ExperimentResult>, cut: Option<Evaluation>)
    requires cut.Some? ==> CutShort(def, root, history, cut.value)
    ensures cut.Some? ==> history != []
  {
  }

  /** An evaluation ends as its fate has it, with a result recorded or not. */
  predicate EndsAs(fate: Fate, o: Outcome<ExperimentResult>, result: Option<ExperimentResult>) {
    match fate
    case Refused => o == Raised(ProposalRejected) && result.None?
    case Unclean => o == Raised(CleanupUnverified) && result.Some?
    case Cut(recorded) => o.Cancelled? && result.Some? == recorded
    case Returns => o.Done? && result == Some(o.value)
  }

  lemma FateIs(fate: Fate, o: Outcome<ExperimentResult>, result: Option<ExperimentResult>)
    requires EndsAs(fate, o, result) && o.Cancelled? && result.Some?
    ensures fate == Cut(true)
  {
  }

  lemma FateSplit(def: Definition, s: SearchState, proposal: Proposal, world: World)
    requires world.valid
    ensures FateOf(def, s, proposal, world) ==
              if world.cleanup.Torn? then Cut(false)
              else if world.cleanup.Broken? then Unclean
              else if EndingOf(def, s, proposal, world).Stopped? && !world.stopRequested then Cut(true) else Returns
  {
  }

  // ------------------------------------------------------------------ trying baselines

  /** The search state in which opening `k` is tried. */
  function StateAt(def: Definition, prior: seq<ExperimentResult>, results: seq<ExperimentResult>, k: nat): SearchState
    requires k <= |results|
  {
    Fold(def, prior + results[..k])
  }

  function FateAt(
      def: Definition, prior: seq<ExperimentResult>, openings: seq<Opening>, results: seq<ExperimentResult>, k: nat): Fate
    requires k <= |results| && k < |openings|
  {
    FateOf(def, StateAt(def, prior, results, k), openings[k].proposal, openings[k].world)
  }

  /** Opening `k` was due: the search not halted, and still no baseline. */
  predicate Due(
      def: Definition, prior: seq<ExperimentResult>, openings: seq<Opening>, results: seq<ExperimentResult>, k: nat)
    requires k <= |results| && k < |openings|
  {
    !openings[k].halted && StateAt(def, prior, results, k).baseline.None?
  }

  /** The results are those owed to the first openings, in order, each tried while it was due. */
  ghost predicate Tried(
      def: Definition, root: Root, prior: seq<ExperimentResult>, openings: seq<Opening>, results: seq<ExperimentResult>)
  {
    && |results| <= |openings|
    && forall k :: 0 <= k < |results| ==> TriedAt(def, root, prior, openings, results, k)
  }

  ghost predicate TriedAt(
      def: Definition, root: Root, prior: seq<ExperimentResult>, openings: seq<Opening>, results: seq<ExperimentResult>, k: nat)
    requires k < |results| <= |openings|
  {
    && Due(def, prior, openings, results, k)
    && Owed(def, root, StateAt(def, prior, results, k), |prior| + k + 1, openings[k].proposal, openings[k].world, results[k])
  }

  ghost predicate AllReturned(
      def: Definition, prior: seq<ExperimentResult>, openings: seq<Opening>, results: seq<ExperimentResult>, n: nat)
    requires n <= |results| <= |openings|
  {
    forall k :: 0 <= k < n ==> FateAt(def, prior, openings, results, k).Returns?
  }

  /** Openings were tried in order, and the attempt stopped where it had to. */
  ghost predicate BaselinesTried(
      def: Definition, root: Root, prior: seq<ExperimentResult>, openings: seq<Opening>, results: seq<ExperimentResult>,
      o: Outcome<()>, cut: Option<Evaluation>)
  {
    && Tried(def, root, prior, openings, results)
    && var n := |results|;
       match o
       case Done(_) =>
         && AllReturned(def, prior, openings, results, n)
         && (n < |openings| ==> !Due(def, prior, openings, results, n))
       case Cancelled =>
         if cut.Some? then
           && n > 0 && AllReturned(def, prior, openings, results, n - 1)
           && FateAt(def, prior, openings, results, n - 1) == Cut(true)
           && cut == Some(Evaluation(openings[n - 1].proposal, openings[n - 1].world))
         else
           && n < |openings| && AllReturned(def, prior, openings, results, n)
           && Due(def, prior, openings, results, n) && FateAt(def, prior, openings, results, n) == Cut(false)
       case Raised(CleanupUnverified) =>
         && n > 0 && AllReturned(def, prior, openings, results, n - 1)
         && FateAt(def, prior, openings, results, n - 1).Unclean?
       case Raised(ProposalRejected) =>
         && n < |openings| && AllReturned(def, prior, openings, results, n)
         && Due(def, prior, openings, results, n) && FateAt(def, prior, openings, results, n).Refused?
       case Raised(_) => false
       case Crashed => true
  }

  /** What held of the first openings holds whatever was tried after them. */
  lemma StateAtKept(
      def: Definition, prior: seq<ExperimentResult>, results: seq<ExperimentResult>, r: ExperimentResult, k: nat)
    requires k <= |results|
    ensures StateAt(def, prior, results + [r], k) == StateAt(def, prior, results, k)
  {
    assert (results + [r])[..k] == results[..k];
  }

  lemma TriedKept(
      def: Definition, root: Root, prior: seq<ExperimentResult>, openings: seq<Opening>, results: seq<ExperimentResult>,
      r: ExperimentResult, k: nat)
    requires k < |results| < |openings|
    ensures TriedAt(def, root, prior, openings, results + [r], k) == TriedAt(def, root, prior, openings, results, k)
    ensures FateAt(def, prior, openings, results + [r], k) == FateAt(def, prior, openings, results, k)
  {
    StateAtKept(def, prior, results, r, k);
    hide Owed, StateAt, FateOf;
  }

  lemma TriedLast(
      def: Definition, root: Root, prior: seq<ExperimentResult>, openings: seq<Opening>, results: seq<ExperimentResult>,
      r: ExperimentResult)
    requires |results| < |openings| && Due(def, prior, openings, results, |results|)
    requires
      var opening := openings[|results|];
      Owed(def, root, Fold(def, prior + results), |prior + results| + 1, opening.proposal, opening.world, r)
    ensures TriedAt(def, root, prior, openings, results + [r], |results|)
    ensures FateAt(def, prior, openings, results + [r], |results|) == FateAt(def, prior, openings, results, |results|)
  {
    assert results[..|results|] == results;
    StateAtKept(def, prior, results, r, |results|);
    hide Owed, Fold, FateOf;
  }

  /** One more opening tried, with a result recorded. */
  lemma TriedNext(
      def: Definition, root: Root, prior: seq<ExperimentResult>, openings: seq<Opening>, results: seq<ExperimentResult>,
      r: ExperimentResult)
    requires Tried(def, root, prior, openings, results) && |results| < |openings|
    requires AllReturned(def, prior, openings, results, |results|)
    requires Due(def, prior, openings, results, |results|)
    requires
      var opening := openings[|results|];
      Owed(def, root, Fold(def, prior + results), |prior + results| + 1, opening.proposal, opening.world, r)
    ensures Tried(def, root, prior, openings, results + [r])
    ensures AllReturned(def, prior, openings, results + [r], |results|)
    ensures FateAt(def, prior, openings, results + [r], |results|) == FateAt(def, prior, openings, results, |results|)
    ensures prior + (results + [r]) == prior + results + [r]
  {
    TriedLast(def, root, prior, openings, results, r);
    hide Owed, Fold, StateAt, Due, FateAt, TriedAt;
    forall k: nat | k < |results|
      ensures TriedAt(def, root, prior, openings, results + [r], k)
      ensures FateAt(def, prior, openings, results + [r], k).Returns?
    {
      TriedKept(def, root, prior, openings, results, r, k);
    }
  }

  /** Every opening so far was due, and its evaluation returned. */
  ghost predicate Going(
      def: Definition, root: Root, prior: seq<ExperimentResult>, openings: seq<Opening>, results: seq<ExperimentResult>)
  {
    Tried(def, root, prior, openings, results) && AllReturned(def, prior, openings, results, |results|)
  }

  lemma GoingDone(
      def: Definition, root: Root, prior: seq<ExperimentResult>, openings: seq<Opening>, results: seq<ExperimentResult>)
    requires Going(def, root, prior, openings, results)
    requires
      |results| < |openings| ==> openings[|results|].halted || Fold(def, prior + results).baseline.Some?
    ensures BaselinesTried(def, root, prior, openings, results, Done(()), None)
  {
    assert results[..|results|] == results;
    hide Tried, AllReturned, Fold;
  }

  lemma GoingCrashed(
      def: Definition, root: Root, prior: seq<ExperimentResult>, openings: seq<Opening>, results: seq<ExperimentResult>)
    requires Going(def, root, prior, openings, results)
    ensures BaselinesTried(def, root, prior, openings, results, Crashed, None)
  {
    hide Tried, AllReturned;
  }

  function WithResult(results: seq<ExperimentResult>, result: Option<ExperimentResult>): seq<ExperimentResult> {
    if result.Some? then results + [result.value] else results
  }

  function WithoutValue(o: Outcome<ExperimentResult>): Outcome<()> {
    match o
    case Done(_) => Done(())
    case Raised(error) => Raised(error)
    case Cancelled => Cancelled
    case Crashed => Crashed
  }

  /** The evaluation of a due opening keeps things going, or ends them the way its fate says. */
  lemma OpeningTried(
      def: Definition, root: Root, prior: seq<ExperimentResult>, openings: seq<Opening>, results: seq<ExperimentResult>,
      o: Outcome<ExperimentResult>, result: Option<ExperimentResult>)
    requires Going(def, root, prior, openings, results) && |results| < |openings|
    requires !openings[|results|].halted && Fold(def, prior + results).baseline.None?
    requires
      var opening, s := openings[|results|], Fold(def, prior + results);
      && EndsAs(FateOf(def, s, opening.proposal, opening.world), o, result)
      && (result.Some? ==> Owed(def, root, s, |prior + results| + 1, opening.proposal, opening.world, result.value))
    ensures o.Done? ==> result.Some? && Going(def, root, prior, openings, results + [result.value])
    ensures
      var opening := openings[|results|];
      var cut := if o.Cancelled? && result.Some? then Some(Evaluation(opening.proposal, opening.world)) else None;
      !o.Done? ==> BaselinesTried(def, root, prior, openings, WithResult(results, result), WithoutValue(o), cut)
    ensures prior + WithResult(results, result) == WithResult(prior + results, result)
  {
    assert results[..|results|] == results;
    hide Owed, Fold, FateOf;
    assert Due(def, prior, openings, results, |results|);
    if result.Some? {
      TriedNext(def, root, prior, openings, results, result.value);
    }
    hide Tried, StateAt;
  }

  /** A result whose runtime failed to close leaves the best as it was. */
  lemma UncleanKeepsBest(
      def: Definition, root: Root, before: seq<ExperimentResult>, proposal: Proposal, world: World, r: ExperimentResult)
    requires Owed(def, root, Fold(def, before), |before| + 1, proposal, world, r)
    requires FateOf(def, Fold(def, before), proposal, world).Unclean?
    ensures Fold(def, before + [r]).best == Fold(def, before).best
  {
    AbsorbBest(def, before, r);
    hide Fold;
  }

  /** What was recorded last was cut short. */
  lemma CutLast(
      def: Definition, root: Root, before: seq<ExperimentResult>, proposal: Proposal, world: World, r: ExperimentResult)
    requires Owed(def, root, Fold(def, before), |before| + 1, proposal, world, r)
    requires FateOf(def, Fold(def, before), proposal, world) == Cut(true)
    ensures CutShort(def, root, before + [r], Evaluation(proposal, world))
    ensures Known(before + [r], Some(Evaluation(proposal, world))) == before
  {
    assert (before + [r])[..|before|] == before;
    hide Owed, Fold, FateOf;
  }

  // ------------------------------------------------------------------ exploring

  /** How a planning turn ends its call, the controller living on. */
  predicate ProposesAs(turn: PlanningTurn, o: Outcome<Option<Proposal>>) {
    match turn.ending
    case Completes => o == Done(turn.submitted) || o == Raised(ArtifactExists)
    case Fails(message) => o == Raised(AgentFailed(message))
    case Expires => o == Raised(BudgetExpired)
    case Stopped => o.Cancelled?
  }

  /** Nothing ends the search at the start of the round, so its planning turn begins. */
  predicate Planning(round: Round) {
    !round.expired && !round.stopped && !round.plateau
  }

  /** An experiment was run to the end in the state its predecessors led to, and its result recorded. */
  ghost predicate RanFully(
      def: Definition, root: Root, before: seq<ExperimentResult>, proposal: Proposal, world: World, r: ExperimentResult)
  {
    && FateOf(def, Fold(def, before), proposal, world).Returns?
    && Owed(def, root, Fold(def, before), |before| + 1, proposal, world, r)
  }

  /** The first `n` rounds were played in full, and these are the results of the proposals made in them. */
  ghost predicate Played(
      def: Definition, root: Root, prior: seq<ExperimentResult>, rounds: seq<Round>, n: nat, results: seq<ExperimentResult>)
    decreases n
  {
    && n <= |rounds|
    && if n == 0 then results == []
       else
         var round, m := rounds[n - 1], |results| - 1;
         && Planning(round) && round.turn.ending.Completes?
         && match round.turn.submitted
            case None => Played(def, root, prior, rounds, n - 1, results)
            case Some(proposal) =>
              && m >= 0 && Played(def, root, prior, rounds, n - 1, results[..m])
              && RanFully(def, root, prior + results[..m], proposal, round.world, results[m])
  }

  lemma NothingPlayed(def: Definition, root: Root, prior: seq<ExperimentResult>, rounds: seq<Round>)
    ensures Played(def, root, prior, rounds, 0, []) && Trailing(rounds, 0, 0) && StillProposing(rounds, 0)
    ensures prior + [] == prior
  {
  }

  lemma PlayedSilent(
      def: Definition, root: Root, prior: seq<ExperimentResult>, rounds: seq<Round>, n: nat, results: seq<ExperimentResult>)
    requires Played(def, root, prior, rounds, n, results) && n < |rounds|
    requires Planning(rounds[n]) && rounds[n].turn.ending.Completes? && rounds[n].turn.submitted.None?
    ensures Played(def, root, prior, rounds, n + 1, results)
  {
  }

  lemma PlayedProposal(
      def: Definition, root: Root, prior: seq<ExperimentResult>, rounds: seq<Round>, n: nat, results: seq<ExperimentResult>,
      r: ExperimentResult)
    requires Played(def, root, prior, rounds, n, results) && n < |rounds|
    requires Planning(rounds[n]) && rounds[n].turn.ending.Completes? && rounds[n].turn.submitted.Some?
    requires RanFully(def, root, prior + results, rounds[n].turn.submitted.value, rounds[n].world, r)
    ensures Played(def, root, prior, rounds, n + 1, results + [r])
  {
    assert (results + [r])[..|results|] == results;
    hide RanFully;
  }

  /** The proposal of round `n` was evaluated, after these results, to this end. */
  ghost predicate EvaluatedAt(
      def: Definition, root: Root, prior: seq<ExperimentResult>, rounds: seq<Round>, n: nat,
      earlier: seq<ExperimentResult>, o: Outcome<ExperimentResult>, result: Option<ExperimentResult>)
  {
    && n < |rounds| && Planning(rounds[n]) && rounds[n].turn.ending.Completes? && rounds[n].turn.submitted.Some?
    && Played(def, root, prior, rounds, n, earlier)
    && var proposal, world, s := rounds[n].turn.submitted.value, rounds[n].world, Fold(def, prior + earlier);
       && EndsAs(FateOf(def, s, proposal, world), o, result)
       && (result.Some? ==> Owed(def, root, s, |prior + earlier| + 1, proposal, world, result.value))
  }

  /** The agent had not yet ended three turns in a row without a proposal. */
  ghost predicate StillProposing(rounds: seq<Round>, n: nat) {
    forall end :: 0 <= end <= n ==> !EmptyRun(rounds, end, 3)
  }

  /** Exactly the last `count` of the first `i` turns ended without a proposal. */
  predicate Trailing(rounds: seq<Round>, i: nat, count: nat) {
    EmptyRun(rounds, i, count) && !EmptyRun(rounds, i, count + 1)
  }

  lemma TrailingNext(rounds: seq<Round>, i: nat, count: nat)
    requires i < |rounds| && Trailing(rounds, i, count) && count < 3 && StillProposing(rounds, i)
    requires rounds[i].turn.ending.Completes?
    ensures rounds[i].turn.submitted.Some? ==> Trailing(rounds, i + 1, 0) && StillProposing(rounds, i + 1)
    ensures rounds[i].turn.submitted.None? ==>
              && Trailing(rounds, i + 1, count + 1)
              && if count == 2 then EmptyRun(rounds, i + 1, 3) else StillProposing(rounds, i + 1)
  {
    assert rounds[i].turn.submitted.Some? ==> !EmptyRun(rounds, i + 1, 1) && !EmptyRun(rounds, i + 1, 3);
    assert EmptyRun(rounds, i + 1, count + 2) ==> EmptyRun(rounds, i, count + 1);
    assert count < 2 && EmptyRun(rounds, i + 1, 3) ==> EmptyRun(rounds, i, count + 1);
  }

  /** Why exploring came to an end with a reason of its own. */
  predicate EndsFor(reason: string, rounds: seq<Round>, n: nat) {
    || (reason == "agent_did_not_propose" && EmptyRun(rounds, n, 3))
    || (reason == "plateau" && n < |rounds| && !rounds[n].expired && !rounds[n].stopped && rounds[n].plateau)
    || (reason == "budget_expired" && OutOfTime(rounds, n))
  }

  /** The deadline or a stop request was seen at the start of the round, or ended its turn, or no round is left. */
  predicate OutOfTime(rounds: seq<Round>, n: nat) {
    n < |rounds| ==>
      || rounds[n].expired || rounds[n].stopped
      || (Planning(rounds[n])
          && (rounds[n].turn.ending.Expires? || (rounds[n].turn.ending.Stopped? && rounds[n].turn.stopRequested)))
  }

  /**
   * Rounds were played one after another, and exploring stopped where it had to: at the third turn in a
   * row without a proposal, at a plateau, at the deadline or a stop, or with the first turn or
   * evaluation that did not come to its regular end.
   */
  ghost predicate Explored(
      def: Definition, root: Root, prior: seq<ExperimentResult>, rounds: seq<Round>, n: nat,
      results: seq<ExperimentResult>, o: Outcome<string>, cut: Option<Evaluation>)
  {
    && (n > 0 ==> StillProposing(rounds, n - 1)) && (EmptyRun(rounds, n, 3) ==> o == Done("agent_did_not_propose") || o.Crashed?)
    && match o
       case Done(reason) => Played(def, root, prior, rounds, n, results) && EndsFor(reason, rounds, n)
       case Cancelled =>
         if cut.Some? then
           && results != [] && n < |rounds| && rounds[n].turn.submitted.Some?
           && cut == Some(Evaluation(rounds[n].turn.submitted.value, rounds[n].world))
           && EvaluatedAt(def, root, prior, rounds, n, results[..|results| - 1], Outcome.Cancelled, Some(results[|results| - 1]))
         else
           || EvaluatedAt(def, root, prior, rounds, n, results, Outcome.Cancelled, None)
           || (Played(def, root, prior, rounds, n, results) && n < |rounds| && Planning(rounds[n])
               && rounds[n].turn.ending.Stopped? && !rounds[n].turn.stopRequested)
       case Raised(CleanupUnverified) =>
         && results != []
         && EvaluatedAt(def, root, prior, rounds, n, results[..|results| - 1], Raised(CleanupUnverified), Some(results[|results| - 1]))
       case Raised(ProposalRejected) => EvaluatedAt(def, root, prior, rounds, n, results, Raised(ProposalRejected), None)
       case Raised(AgentFailed(message)) =>
         && Played(def, root, prior, rounds, n, results) && n < |rounds| && Planning(rounds[n])
         && rounds[n].turn.ending == Fails(message)
       case Raised(ArtifactExists) =>
         && Played(def, root, prior, rounds, n, results) && n < |rounds| && Planning(rounds[n])
         && rounds[n].turn.ending.Completes?
       case Raised(_) => false
       case Crashed => true
  }

  function AsReason(o: Outcome<ExperimentResult>): Outcome<string> {
    match o
    case Done(_) => Done("")
    case Raised(error) => Raised(error)
    case Cancelled => Cancelled
    case Crashed => Crashed
  }

  /** An evaluation carries the exploring on, or ends it the way its fate says. */
  lemma RoundEvaluated(
      def: Definition, root: Root, prior: seq<ExperimentResult>, rounds: seq<Round>, n: nat,
      earlier: seq<ExperimentResult>, o: Outcome<ExperimentResult>, result: Option<ExperimentResult>)
    requires EvaluatedAt(def, root, prior, rounds, n, earlier, o, result) && StillProposing(rounds, n)
    ensures o.Done? ==> result.Some? && Played(def, root, prior, rounds, n + 1, earlier + [result.value])
    ensures
      var cut := if o.Cancelled? && result.Some?
                 then Some(Evaluation(rounds[n].turn.submitted.value, rounds[n].world)) else None;
      !o.Done? ==> Explored(def, root, prior, rounds, n, WithResult(earlier, result), AsReason(o), cut)
    ensures prior + WithResult(earlier, result) == WithResult(prior + earlier, result)
  {
    hide Owed, FateOf, Fold, EmptyRun;
    if o.Done? {
      PlayedProposal(def, root, prior, rounds, n, earlier, result.value);
    } else if result.Some? {
      assert (earlier + [result.value])[..|earlier|] == earlier;
    }
  }

  /** At the start of a round, or with no round left, the search may end for the deadline, a stop or a plateau. */
  lemma RoundEnds(
      def: Definition, root: Root, prior: seq<ExperimentResult>, rounds: seq<Round>, n: nat, results: seq<ExperimentResult>)
    requires Played(def, root, prior, rounds, n, results) && StillProposing(rounds, n)
    ensures OutOfTime(rounds, n) ==> Explored(def, root, prior, rounds, n, results, Done("budget_expired"), None)
    ensures EndsFor("plateau", rounds, n) ==> Explored(def, root, prior, rounds, n, results, Done("plateau"), None)
    ensures Explored(def, root, prior, rounds, n, results, Crashed, None)
  {
    hide Played, EmptyRun, EvaluatedAt;
  }

  lemma NoRoundLeft(def: Definition, root: Root, prior: seq<ExperimentResult>, rounds: seq<Round>, results: seq<ExperimentResult>)
    requires Played(def, root, prior, rounds, |rounds|, results) && StillProposing(rounds, |rounds|)
    ensures Explored(def, root, prior, rounds, |rounds|, results, Done("budget_expired"), None)
  {
    hide Played, EmptyRun, EvaluatedAt;
  }

  /** A planning turn that does not complete ends the search. */
  lemma TurnEnds(
      def: Definition, root: Root, prior: seq<ExperimentResult>, rounds: seq<Round>, n: nat, results: seq<ExperimentResult>,
      proposed: Outcome<Option<Proposal>>)
    requires Played(def, root, prior, rounds, n, results) && StillProposing(rounds, n)
    requires n < |rounds| && Planning(rounds[n]) && ProposesAs(rounds[n].turn, proposed)
    ensures proposed.Raised? && !proposed.error.BudgetExpired? ==>
              Explored(def, root, prior, rounds, n, results, Raised(proposed.error), None)
    ensures proposed.Cancelled? && !rounds[n].turn.stopRequested ==>
              Explored(def, root, prior, rounds, n, results, Outcome.Cancelled, None)
    ensures proposed == Raised(BudgetExpired) || (proposed.Cancelled? && rounds[n].turn.stopRequested) ==>
              Explored(def, root, prior, rounds, n, results, Done("budget_expired"), None)
  {
    hide Played, EmptyRun, EvaluatedAt;
  }

  lemma ThirdEmptyTurn(
      def: Definition, root: Root, prior: seq<ExperimentResult>, rounds: seq<Round>, n: nat, results: seq<ExperimentResult>)
    requires Played(def, root, prior, rounds, n, results) && n > 0 && StillProposing(rounds, n - 1)
    requires EmptyRun(rounds, n, 3)
    ensures Explored(def, root, prior, rounds, n, results, Done("agent_did_not_propose"), None)
  {
    hide Played, EvaluatedAt;
  }

  /** The baselines are tried where none is recorded, and exploring follows if trying them came to its regular end. */
  ghost predicate Searched(
      def: Definition, root: Root, prior: seq<ExperimentResult>, script: Script, c: Course, o: Outcome<string>)
  {
    && (if Fold(def, prior).baseline.Some? then c.tried == [] && c.first == Done(())
        else BaselinesTried(def, root, prior, script.baselines, c.tried, c.first, if c.first.Cancelled? then c.cut else None))
    && match c.first
       case Done(_) =>
         && Explored(def, root, prior + c.tried, script.rounds, c.played, c.found, c.explored, c.cut)
         && o == if c.explored.Done? && script.stopped then Done("manual_stop") else c.explored
       case Raised(error) => o == Raised(error) && c.found == [] && c.cut.None?
       case Cancelled => o.Cancelled? && c.found == []
       case Crashed => o.Crashed?
  }

  /** The reason a run closes with. */
  function ReasonOf(searched: Outcome<string>): string {
    match searched
    case Done(reason) => reason
    case Raised(_) => "controller_error"
    case _ => "budget_expired"
  }

  /** What a run answers, once the backend is closed, or fails to close. */
  predicate Answers(closing: Cleanup, searched: Outcome<string>, o: Outcome<SearchOutcome>) {
    match closing
    case Broken(message) => o == Raised(ClosingFailed(message))
    case Torn => o.Cancelled?
    case Cleaned =>
      match searched {
        case Done(reason) => o.Done? && o.value.reason == reason
        case Raised(error) => o == Raised(error)
        case Cancelled => o.Cancelled?
        case Crashed => o.Crashed?
      }
  }

  class Optimizer<F(==, !new)> {
    const definition: Definition
    const root: Root
    const store: ExperimentStore<F>
    const verifier: DeterministicVerifier

    var reference: Option<map<string, string>>
    var baseline: Option<ExperimentResult>
    var baselineMetric: Option<Benchmark>
    var best: Option<ExperimentResult>

    constructor (definition: Definition, root: Root, store: ExperimentStore<F>)
      ensures this.definition == definition && this.root == root && this.store == store
      ensures Configured() == (definition.policy.Valid() && store.codec.RoundTrips())
      ensures State() == FRESH
    {
      this.definition, this.root, this.store := definition, root, store;
      this.verifier := new DeterministicVerifier(definition, root);
      this.reference, this.baseline, this.baselineMetric, this.best := None, None, None, None;
    }

    function State(): SearchState
      reads this
    {
      SearchState(reference, baseline, baselineMetric, best)
    }

    ghost predicate Configured() {
      && verifier.definition == definition && verifier.root == root
      && definition.policy.Valid() && store.codec.RoundTrips()
    }

    /** The directory is as some run of controllers may have left it. */
    ghost predicate Kept()
      reads store
    {
      Configured() && Durable(definition, root, store.codec, store.disk)
    }

    /** The memory holds what the recorded results say, and nothing is pending. */
    ghost predicate Ready()
      reads this, store
    {
      Kept() && Idle(store.disk) && State() == Fold(definition, History(store.codec, store.disk))
    }

    ghost predicate Since(before: Disk<F>)
      reads store
    {
      Kept() && Reaches(definition, root, store.codec, before, store.disk)
    }

    // ---------------------------------------------------------------- measuring

    /** Since `before`, the experiment underway has only saved trials. */
    ghost predicate Measures(before: Disk<F>, id: int, proposal: Proposal)
      reads store
    {
      Configured() && Measuring(definition, root, store.codec, before, store.disk, id, proposal)
    }

    /** The trials at one level, each saved as it completes. */
    method RunRepetitions(ghost before: Disk<F>, id: int, ghost proposal: Proposal, c: int, world: World)
      returns (alive: bool, ending: Ending, benchmarks: seq<Benchmark>)
      requires Measures(before, id, proposal) && MeasuredUpTo(store.disk.artifacts, id, c, 0)
      modifies store
      ensures Measures(before, id, proposal)
      ensures MeasuredUpTo(store.disk.artifacts, id, c, definition.policy.repetitions)
      ensures store.power.None? == old(store.power).None? && (!alive ==> store.power.Some?)
      ensures alive ==> (ending, benchmarks) == Repeat(world, c, 1, definition.policy.repetitions)
    {
      benchmarks := [];
      var last := definition.policy.repetitions;
      RanNext(world, c, 1, last, []);
      hide Measuring, RanUpTo, Repeat;
      for t := 1 to last + 1
        invariant Measures(before, id, proposal) && store.power.None? == old(store.power).None?
        invariant MeasuredUpTo(store.disk.artifacts, id, c, t - 1)
        invariant RanUpTo(world, c, t, last, benchmarks)
      {
        RanNext(world, c, t, last, benchmarks);
        var trial := world.trials(c, t);
        if !trial.ending.Completes? {
          return true, trial.ending, benchmarks;
        }
        benchmarks := benchmarks + [trial.measured];
        var text := store.codec.measurement(trial.measured);
        MeasureStep(definition, root, store.codec, before, store.disk, id, proposal, c, t, text);
        var saved := store.Artifact(BenchmarkFile(id, c, t), text);
        if saved.Crashed? {
          return false, Completes, benchmarks;
        }
      }
      RanNext(world, c, last + 1, last, benchmarks);
      return true, Completes, benchmarks;
    }

    /** Every level in turn. */
    method RunSweep(ghost before: Disk<F>, id: int, ghost proposal: Proposal, world: World)
      returns (alive: bool, ending: Ending, benchmarks: seq<Benchmark>)
      requires Measures(before, id, proposal) && MeasuredUpTo(store.disk.artifacts, id, 0, 0)
      modifies store
      ensures Measures(before, id, proposal)
      ensures store.power.None? == old(store.power).None? && (!alive ==> store.power.Some?)
      ensures alive ==> (ending, benchmarks) == Sweep(world, definition.policy.levels, definition.policy.repetitions)
    {
      benchmarks := [];
      var levels, repetitions := definition.policy.levels, definition.policy.repetitions;
      SweptNext(world, levels, repetitions, 0, []);
      assert levels[0] in levels;
      hide Measuring, SweptUpTo, Sweep, Repeat;
      for i := 0 to |levels|
        invariant Measures(before, id, proposal) && store.power.None? == old(store.power).None?
        invariant i < |levels| ==> MeasuredUpTo(store.disk.artifacts, id, levels[i], 0)
        invariant SweptUpTo(world, levels, repetitions, i, benchmarks)
      {
        SweptNext(world, levels, repetitions, i, benchmarks);
        var completed, how, measured := RunRepetitions(before, id, proposal, levels[i], world);
        benchmarks := benchmarks + measured;
        if !completed {
          return false, Completes, benchmarks;
        }
        if !how.Completes? {
          return true, how, benchmarks;
        }
      }
      SweptNext(world, levels, repetitions, |levels|, benchmarks);
      return true, Completes, benchmarks;
    }

    /** Open a runtime, check correctness, sweep the load levels, judge, and optionally profile. */
    method Measure(ghost before: Disk<F>, id: int, proposal: Proposal, world: World)
      returns (alive: bool, ending: Ending, e: Evidence, status: Status, decision: Decision)
      requires Measures(before, id, proposal) && MeasuredUpTo(store.disk.artifacts, id, 0, 0)
      modifies this, store
      ensures Measures(before, id, proposal)
      ensures alive ==>
                Concluded(definition, root, old(State()), proposal, world, State(), ending, e, status, decision)
      ensures best == old(best)
      ensures store.power.None? == old(store.power).None? && (!alive ==> store.power.Some?)
    {
      ghost var s := State();
      status, decision := Failed, Ineligible([NotCompleted]);
      alive, e := true, Evidence(Completes, None, []);
      hide Measuring, Sweep, Judged, MeasuredUpTo;
      if !world.opening.Completes? {
        return true, world.opening, Evidence(world.opening, None, []), status, decision;
      }
      if !world.checking.Completes? {
        return true, world.checking, Evidence(world.checking, None, []), status, decision;
      }
      var correctness := CorrectnessResult(definition.suite.fingerprint, world.checks(reference));
      if !correctness.Passed() {
        return true, Completes, Evidence(Completes, Some(correctness), []), Rejected, Ineligible([CorrectnessRejected]);
      }
      var benchmarks;
      alive, ending, benchmarks := RunSweep(before, id, proposal, world);
      e := Evidence(ending, Some(correctness), benchmarks);
      if !alive || !ending.Completes? {
        return;
      }
      SweepLength(world, definition.policy.levels, definition.policy.repetitions);
      SomeTrials(definition.policy);
      if baselineMetric.None? && AllValid(definition, benchmarks) {
        baselineMetric := Some(benchmarks[0]);
      }
      decision := verifier.Decide(Some(correctness), benchmarks, BestDecision(State()), baselineMetric);
      status := if decision.eligible then Verified else Rejected;
      if proposal.profile && !world.profiling.Fails? {
        ending := world.profiling;
      }
    }

    method RememberReference(r: ExperimentResult)
      modifies this`reference, this`baseline, this`baselineMetric
      ensures State() == Remember(definition, old(State()), r)
    {
      if reference.None? && r.correctness.Some? && r.correctness.value.Passed() {
        reference := Some(References(r.correctness.value.observations));
      }
      if baseline.None? && IsBaseline(definition, r) {
        baseline := Some(r);
        baselineMetric := Some(r.benchmarks[0]);
      }
    }

    /** What an experiment that was started and finished leaves behind: one more recorded result, the one owed. */
    ghost predicate Leaves(before: Disk<F>, proposal: Proposal, world: World, r: ExperimentResult)
      reads store
    {
      var prior := History(store.codec, before);
      && Since(before) && Idle(store.disk)
      && History(store.codec, store.disk) == prior + [r]
      && Owed(definition, root, Fold(definition, prior), |prior| + 1, proposal, world, r)
    }

    /** Turn a concluded measurement into the result to record. */
    method Assemble(id: int, proposal: Proposal, world: World, ending: Ending, e: Evidence, reached: Status, judged: Decision)
      returns (r: ExperimentResult)
      ensures r == Assembled(id, proposal, world.at, e, ending, world.cleanup, reached, judged)
    {
      var status, decision, error := reached, judged, None;
      if ending.Expires? || ending.Stopped? {
        if status != Verified && status != Rejected {
          status, error := Interrupted, Some("stopped before verification completed");
        }
      } else if ending.Fails? {
        error := Some(ending.message);
      }
      if world.cleanup.Broken? {
        status, error := Failed, Some("runtime cleanup failed: " + world.cleanup.message);
      }
      if status == Failed || status == Interrupted {
        decision := Ineligible([if error.Some? then RunFailed(error.value) else NotCompleted]);
      }
      r := ExperimentResult(id, proposal, status, world.at, e.correctness, e.benchmarks, decision, error);
    }

    /** Commit the result owed to the experiment underway, in both steps. */
    method Commit(ghost before: Disk<F>, id: int, proposal: Proposal, world: World, r: ExperimentResult) returns (alive: bool)
      requires Measures(before, id, proposal) && id == |History(store.codec, before)| + 1
      requires Owed(definition, root, Fold(definition, History(store.codec, before)), id, proposal, world, r)
      modifies store
      ensures Since(before)
      ensures alive ==> Leaves(before, proposal, world, r)
      ensures store.power.None? == old(store.power).None? && (!alive ==> store.power.Some?)
    {
      FinishExperiment(definition, root, store.codec, before, store.disk, id, proposal, world, r);
      hide Owed, Idle, Durable, Reaches, Measuring, History, Fold, Refusal;
      var finished := store.Finish(world.at, r);
      return finished.Done?;
    }

    /** Record the result of the experiment underway and bring the memory up to date. */
    method Conclude(
        ghost before: Disk<F>, ghost s: SearchState, id: int, proposal: Proposal, world: World, ending: Ending, r: ExperimentResult)
      returns (o: Outcome<ExperimentResult>)
      requires Measures(before, id, proposal)
      requires s == Fold(definition, History(store.codec, before)) && Owed(definition, root, s, id, proposal, world, r)
      requires id == |History(store.codec, before)| + 1
      requires State() == Provisional(definition, s, Measured(definition, world, s.reference))
      modifies this, store
      ensures Since(before)
      ensures !o.Crashed? ==> Leaves(before, proposal, world, r)
      ensures !o.Crashed? ==>
                o == if world.cleanup.Broken? then Raised(CleanupUnverified)
                     else if ending.Stopped? && !world.stopRequested then Cancelled else Done(r)
      ensures o.Done? ==> Ready()
      ensures !o.Done? ==> best == old(best)
      ensures store.power.None? == old(store.power).None? && (o.Crashed? ==> store.power.Some?)
    {
      hide Owed, Idle, Durable, Reaches, Measuring, History, Measured, Provisional, Fold, Remember;
      var alive := Commit(before, id, proposal, world, r);
      if !alive {
        return Crashed;
      }
      RememberReference(r);
      if world.cleanup.Broken? {
        return Raised(CleanupUnverified);
      }
      StateFollows(definition, root, History(store.codec, before), id, proposal, world, r);
      if ending.Stopped? && !world.stopRequested {
        return Cancelled;
      }
      if r.decision.accepted {
        best := Some(r);
      }
      return Done(r);
    }

    /**
     * Run one experiment. `result` is what was recorded, whichever way the call ends; a call that
     * returns leaves the memory in step with the record, and one that is cancelled after recording
     * leaves `best` as it was.
     */
    method Evaluate(proposal: Proposal, world: World) returns (o: Outcome<ExperimentResult>, ghost result: Option<ExperimentResult>)
      requires Ready()
      modifies this, store
      ensures Since(old(store.disk))
      ensures result.Some? ==> Leaves(old(store.disk), proposal, world, result.value)
      ensures result.Some? && result.value.decision.accepted ==> world.cleanup.Cleaned?
      ensures !o.Crashed? ==> EndsAs(FateOf(definition, old(State()), proposal, world), o, result)
      ensures o.Done? || o == Raised(ProposalRejected) ==> Ready()
      ensures result.None? && !o.Crashed? ==> History(store.codec, store.disk) == History(store.codec, old(store.disk))
      ensures !o.Done? ==> best == old(best)
      ensures store.power.None? == old(store.power).None? && (o.Crashed? ==> store.power.Some?)
    {
      ghost var before, s := store.disk, State();
      ReachesItself(definition, root, store.codec, before);
      result := None;
      if !world.valid {
        return Raised(ProposalRejected), None;
      }
      BeginStep(definition, root, store.codec, before, world.at, proposal);
      hide Owed, Idle, Durable, Reaches, Underway, History, Provisional, EndingOf, Fold, Chained, MeasuredUpTo, FateOf;
      var begun := store.Begin(world.at, proposal);
      if begun.Crashed? {
        return Crashed, None;
      }
      o, result := EvaluateStarted(before, s, begun.value, proposal, world);
    }

    /** Run the experiment whose start has just been recorded. */
    method EvaluateStarted(ghost before: Disk<F>, ghost s: SearchState, id: int, proposal: Proposal, world: World)
      returns (o: Outcome<ExperimentResult>, ghost result: Option<ExperimentResult>)
      requires world.valid && Measures(before, id, proposal) && MeasuredUpTo(store.disk.artifacts, id, 0, 0)
      requires id == |History(store.codec, before)| + 1
      requires s == State() == Fold(definition, History(store.codec, before))
      modifies this, store
      ensures Since(before)
      ensures result.Some? ==> Leaves(before, proposal, world, result.value)
      ensures result.Some? && result.value.decision.accepted ==> world.cleanup.Cleaned?
      ensures !o.Crashed? ==> EndsAs(FateOf(definition, s, proposal, world), o, result)
      ensures o.Done? ==> Ready()
      ensures o != Raised(ProposalRejected)
      ensures result.None? && !o.Crashed? ==> History(store.codec, store.disk) == History(store.codec, before)
      ensures !o.Done? ==> best == old(best)
      ensures store.power.None? == old(store.power).None? && (o.Crashed? ==> store.power.Some?)
    {
      hide Owed, Idle, Durable, Reaches, Underway, History, Measured, Provisional, EndingOf, Fold, Chained, Verdict, MeasuredUpTo;
      hide Concluded;
      var alive, ending, e, status, decision := Measure(before, id, proposal, world);
      if !alive {
        return Crashed, None;
      }
      if world.cleanup.Torn? {
        FateSplit(definition, s, proposal, world);
        hide FateOf;
        return Cancelled, None;
      }
      o, result := EvaluateMeasured(before, s, id, proposal, world, ending, e, status, decision);
    }

    /** Record what came of a measurement whose runtime was closed, or failed to close. */
    method EvaluateMeasured(
        ghost before: Disk<F>, ghost s: SearchState, id: int, proposal: Proposal, world: World,
        ending: Ending, e: Evidence, status: Status, decision: Decision)
      returns (o: Outcome<ExperimentResult>, ghost result: Option<ExperimentResult>)
      requires world.valid && !world.cleanup.Torn? && Measures(before, id, proposal)
      requires id == |History(store.codec, before)| + 1 && s == Fold(definition, History(store.codec, before))
      requires Concluded(definition, root, s, proposal, world, State(), ending, e, status, decision)
      modifies this, store
      ensures Since(before)
      ensures result.Some? ==> Leaves(before, proposal, world, result.value)
      ensures result.Some? && result.value.decision.accepted ==> world.cleanup.Cleaned?
      ensures !o.Crashed? ==> result.Some? && EndsAs(FateOf(definition, s, proposal, world), o, result)
      ensures o.Done? ==> Ready()
      ensures o != Raised(ProposalRejected)
      ensures !o.Done? ==> best == old(best)
      ensures store.power.None? == old(store.power).None? && (o.Crashed? ==> store.power.Some?)
    {
      result := None;
      FateSplit(definition, s, proposal, world);
      hide Owed, Idle, Durable, Reaches, Underway, History, Measured, Provisional, EndingOf, Fold, Chained, Verdict, FateOf;
      AssembledIsOwed(definition, root, s, id, proposal, world, State(), ending, e, status, decision);
      var r := Assemble(id, proposal, world, ending, e, status, decision);
      o := Conclude(before, s, id, proposal, world, ending, r);
      if !o.Crashed? {
        result := Some(r);
      }
    }

    // ---------------------------------------------------------------- recovery

    /** Finish what an earlier controller left pending, keeping a result that had reached the disk. */
    method FinishPending(at: int) returns (o: Outcome<()>)
      requires Kept()
      modifies store
      ensures Since(old(store.disk))
      ensures o.Done? || o.Crashed?
      ensures o.Done? ==>
                && Idle(store.disk)
                && History(store.codec, store.disk) == RecoveredHistory(store.codec, old(store.disk))
      ensures store.power.None? == old(store.power).None? && (o.Crashed? ==> store.power.Some?)
    {
      ghost var before := store.disk;
      ReachesItself(definition, root, store.codec, before);
      IdleNothingPending(definition, root, store.codec, before);
      var pending := store.Pending();
      if pending.Err? {
        return Raised(HistoryCorrupt);
      }
      hide WellJudged, Idle, Reaches, Consistent, History, Unfinished, StartsOf, Log, Chained, Refusal;
      for i := 0 to |pending.value|
        invariant store.power.None? == old(store.power).None? && (i == 0 ==> store.disk == before)
        invariant i > 0 ==>
          Since(before) && Idle(store.disk) && History(store.codec, store.disk) == RecoveredHistory(store.codec, before)
      {
        PendingResult(definition, root, store.codec, before);
        var result := ToFinish(store.codec, store.disk, pending.value[i]);
        if result.None? {
          return Raised(InvalidResult);
        }
        FinishStep(definition, root, store.codec, store.disk, at, result.value);
        var finished := store.Finish(at, result.value);
        if finished.Crashed? {
          return Crashed;
        }
      }
      return Done(());
    }

    /** Bring a fresh controller to where the recorded results left the search. */
    method Recover(at: int) returns (o: Outcome<()>)
      requires Kept() && State() == FRESH
      modifies this, store
      ensures Since(old(store.disk))
      ensures o.Done? || o.Crashed?
      ensures o.Done? ==> Ready() && History(store.codec, store.disk) == RecoveredHistory(store.codec, old(store.disk))
      ensures store.power.None? == old(store.power).None? && (o.Crashed? ==> store.power.Some?)
    {
      o := FinishPending(at);
      if !o.Done? {
        return;
      }
      DurableReadable(definition, root, store.codec, store.disk);
      var results := store.Results();
      if results.Err? {
        return Raised(InvalidResult);
      }
      hide Idle, Reaches, Durable, Unfinished, Chained, RecoveredHistory;
      Replay(results.value);
      return Done(());
    }

    method Replay(results: seq<ExperimentResult>)
      requires State() == FRESH
      modifies this
      ensures State() == Fold(definition, results)
    {
      hide Remember;
      for i := 0 to |results|
        invariant State() == Fold(definition, results[..i])
      {
        assert results[..i + 1] == results[..i] + [results[i]];
        FoldNext(definition, results[..i], results[i]);
        RememberReference(results[i]);
        if results[i].decision.accepted {
          best := Some(results[i]);
        }
      }
      assert results[..|results|] == results;
    }

    // ---------------------------------------------------------------- planning

    /** One planning turn: its transcript is saved, then journalled. */
    method Propose(turn: PlanningTurn) returns (o: Outcome<Option<Proposal>>)
      requires Ready()
      modifies store
      ensures Since(old(store.disk))
      ensures !o.Crashed? ==> Ready() && History(store.codec, store.disk) == History(store.codec, old(store.disk))
      ensures !o.Crashed? ==> ProposesAs(turn, o)
      ensures o == Raised(ArtifactExists) <==>
                turn.ending.Completes?
                && !Free(old(store.disk).artifacts, NextTurn(Log(old(store.disk).journal)), store.codec.transcript(turn.text))
      ensures o.Raised? ==> store.disk == old(store.disk)
      ensures store.power.None? == old(store.power).None? && (o.Crashed? ==> store.power.Some?)
    {
      ghost var before := store.disk;
      ReachesItself(definition, root, store.codec, before);
      match turn.ending
      case Fails(message) => return Raised(AgentFailed(message));
      case Expires => return Raised(BudgetExpired);
      case Stopped => return Cancelled;
      case Completes =>
        var events := store.Events();
        if events.Err? {
          return Raised(HistoryCorrupt);
        }
        var key := NextTurn(Log(events.value));
        var text := store.codec.transcript(turn.text);
        if Free(store.disk.artifacts, key, text) {
          TurnStep(definition, root, store.codec, before, turn.at, text, turn.submitted.Some?);
        }
        hide Idle, Reaches, Consistent, History, Log, Fold;
        var digest := store.Artifact(key, text);
        if digest.Raised? {
          return Raised(ArtifactExists);
        }
        if digest.Crashed? {
          return Crashed;
        }
        hide Chained;
        var appended := store.Append(turn.at, AgentTurn(key, digest.value, turn.submitted.Some?));
        if appended.Done? {
          return Done(turn.submitted);
        }
        return Crashed;
    }

    // ---------------------------------------------------------------- a whole run

    /** Journal a record that concerns no experiment and no turn. */
    method Record(at: int, payload: Payload) returns (alive: bool)
      requires Kept() && !payload.Started? && !payload.Finished? && !payload.AgentTurn?
      modifies store
      ensures Since(old(store.disk))
      ensures Idle(old(store.disk)) ==> Idle(store.disk)
      ensures History(store.codec, store.disk) == History(store.codec, old(store.disk))
      ensures alive ==> store.disk == Appended(store.codec, old(store.disk), at, payload)
      ensures store.power.None? == old(store.power).None? && (!alive ==> store.power.Some?)
    {
      ReachesItself(definition, root, store.codec, store.disk);
      NoteStep(definition, root, store.codec, store.disk, at, payload);
      var appended := store.Append(at, payload);
      return appended.Done?;
    }

    /**
     * The memory is in step with the records, save for the result of an evaluation cancelled after
     * recording it, if that is how the search ended.
     */
    ghost predicate InStep(cut: Option<Evaluation>)
      reads this, store
    {
      var history := History(store.codec, store.disk);
      && (cut.Some? ==> CutShort(definition, root, history, cut.value))
      && best == Fold(definition, Known(history, cut)).best
    }

    /** Baselines are tried in order until one is fully measured or the search is halted. */
    method TryBaselines(openings: seq<Opening>)
      returns (o: Outcome<()>, ghost results: seq<ExperimentResult>, ghost cut: Option<Evaluation>)
      requires Ready() && baseline.None?
      modifies this, store
      ensures Since(old(store.disk))
      ensures o.Done? ==> Ready()
      ensures BaselinesTried(definition, root, History(store.codec, old(store.disk)), openings, results, o, cut)
      ensures !o.Cancelled? ==> cut.None?
      ensures !o.Crashed? ==> History(store.codec, store.disk) == History(store.codec, old(store.disk)) + results
      ensures o.Cancelled? || o.Raised? ==> InStep(cut)
      ensures store.power.None? == old(store.power).None? && (o.Crashed? ==> store.power.Some?)
    {
      ghost var before, prior := store.disk, History(store.codec, store.disk);
      ReachesItself(definition, root, store.codec, before);
      results, cut := [], None;
      assert prior + [] == prior && Going(definition, root, prior, openings, []);
      hide Idle, Reaches, Durable, History, Fold, Owed, FateOf, Going, BaselinesTried, EndsAs, CutShort, Known;
      for i := 0 to |openings|
        invariant Since(before) && Ready() && baseline.None? && |results| == i
        invariant History(store.codec, store.disk) == prior + results
        invariant Going(definition, root, prior, openings, results)
        invariant store.power.None? == old(store.power).None?
      {
        if openings[i].halted {
          GoingDone(definition, root, prior, openings, results);
          return Done(()), results, None;
        }
        var evaluated;
        evaluated, results, cut := TryOpening(openings, i, before, prior, results);
        if !evaluated.Done? {
          return WithoutValue(evaluated), results, cut;
        }
        if baseline.Some? {
          GoingDone(definition, root, prior, openings, results);
          return Done(()), results, None;
        }
      }
      GoingDone(definition, root, prior, openings, results);
      return Done(()), results, None;
    }

    /** Evaluate an opening that is due. */
    method TryOpening(
        openings: seq<Opening>, i: nat, ghost before: Disk<F>, ghost prior: seq<ExperimentResult>,
        ghost earlier: seq<ExperimentResult>)
      returns (o: Outcome<ExperimentResult>, ghost results: seq<ExperimentResult>, ghost cut: Option<Evaluation>)
      requires Since(before) && Ready() && baseline.None? && i == |earlier| < |openings| && !openings[i].halted
      requires History(store.codec, store.disk) == prior + earlier && Going(definition, root, prior, openings, earlier)
      modifies this, store
      ensures Since(before)
      ensures o.Done? ==> Ready() && |results| == i + 1 && Going(definition, root, prior, openings, results)
      ensures !o.Done? ==> BaselinesTried(definition, root, prior, openings, results, WithoutValue(o), cut)
      ensures !o.Cancelled? ==> cut.None?
      ensures !o.Crashed? ==> History(store.codec, store.disk) == prior + results
      ensures o.Cancelled? || o.Raised? ==> InStep(cut)
      ensures store.power.None? == old(store.power).None? && (o.Crashed? ==> store.power.Some?)
    {
      var proposal, world := openings[i].proposal, openings[i].world;
      ghost var middle, so := store.disk, prior + earlier;
      ghost var result;
      hide Idle, Reaches, Durable, History, Fold, Owed, FateOf, Going, BaselinesTried, EndsAs, CutShort, Known;
      o, result := Evaluate(proposal, world);
      cut := None;
      ReachesOnwards(definition, root, store.codec, before, middle, store.disk);
      if o.Crashed? {
        GoingCrashed(definition, root, prior, openings, earlier);
        return o, earlier, None;
      }
      OpeningTried(definition, root, prior, openings, earlier, o, result);
      results := WithResult(earlier, result);
      if o.Cancelled? && result.Some? {
        cut := Some(Evaluation(proposal, world));
        FateIs(FateOf(definition, Fold(definition, so), proposal, world), o, result);
        CutLast(definition, root, so, proposal, world, result.value);
      } else if o.Raised? {
        KeptInStep(so, proposal, world, o, result);
      }
    }

    /** An evaluation that raises leaves the memory in step with the records. */
    lemma KeptInStep(
        so: seq<ExperimentResult>, proposal: Proposal, world: World, o: Outcome<ExperimentResult>,
        result: Option<ExperimentResult>)
      requires o.Raised? && EndsAs(FateOf(definition, Fold(definition, so), proposal, world), o, result)
      requires best == Fold(definition, so).best
      requires History(store.codec, store.disk) == WithResult(so, result)
      requires result.Some? ==> Owed(definition, root, Fold(definition, so), |so| + 1, proposal, world, result.value)
      ensures InStep(None)
    {
      hide Owed, FateOf, Fold, History;
      if result.Some? {
        UncleanKeepsBest(definition, root, so, proposal, world, result.value);
      }
    }

    /** Evaluate the proposal made in round `i`. */
    method TryProposal(
        rounds: seq<Round>, i: nat, ghost before: Disk<F>, ghost prior: seq<ExperimentResult>,
        ghost earlier: seq<ExperimentResult>)
      returns (o: Outcome<ExperimentResult>, ghost results: seq<ExperimentResult>, ghost cut: Option<Evaluation>)
      requires Since(before) && Ready() && History(store.codec, store.disk) == prior + earlier
      requires i < |rounds| && Planning(rounds[i]) && rounds[i].turn.ending.Completes? && rounds[i].turn.submitted.Some?
      requires Played(definition, root, prior, rounds, i, earlier) && StillProposing(rounds, i)
      modifies this, store
      ensures Since(before)
      ensures o.Done? ==> Ready() && Played(definition, root, prior, rounds, i + 1, results)
      ensures !o.Done? ==> Explored(definition, root, prior, rounds, i, results, AsReason(o), cut)
      ensures !o.Crashed? ==> History(store.codec, store.disk) == prior + results
      ensures o.Cancelled? || o.Raised? ==> InStep(cut)
      ensures !o.Cancelled? ==> cut.None?
      ensures store.power.None? == old(store.power).None? && (o.Crashed? ==> store.power.Some?)
    {
      var proposal, world := rounds[i].turn.submitted.value, rounds[i].world;
      ghost var middle, so := store.disk, prior + earlier;
      ghost var result;
      hide Idle, Reaches, Durable, History, Fold, Owed, FateOf, CutShort, Known, Played, Explored, EndsAs;
      o, result := Evaluate(proposal, world);
      cut := None;
      ReachesOnwards(definition, root, store.codec, before, middle, store.disk);
      if o.Crashed? {
        RoundEnds(definition, root, prior, rounds, i, earlier);
        return o, earlier, None;
      }
      RoundEvaluated(definition, root, prior, rounds, i, earlier, o, result);
      results := WithResult(earlier, result);
      if o.Cancelled? && result.Some? {
        cut := Some(Evaluation(proposal, world));
        FateIs(FateOf(definition, Fold(definition, so), proposal, world), o, result);
        CutLast(definition, root, so, proposal, world, result.value);
      } else if o.Raised? {
        KeptInStep(so, proposal, world, o, result);
      }
    }

    /** Plan in round `i`; without a value to go on with, `o` is how exploring ends. */
    method PlanRound(
        rounds: seq<Round>, i: nat, ghost before: Disk<F>, ghost prior: seq<ExperimentResult>,
        ghost results: seq<ExperimentResult>)
      returns (o: Outcome<string>, proposal: Option<Proposal>, goesOn: bool)
      requires Since(before) && Ready() && History(store.codec, store.disk) == prior + results
      requires i < |rounds| && Played(definition, root, prior, rounds, i, results) && StillProposing(rounds, i)
      modifies store
      ensures Since(before)
      ensures !o.Crashed? ==> Ready() && History(store.codec, store.disk) == prior + results
      ensures goesOn ==> o.Done? && Planning(rounds[i]) && rounds[i].turn.ending.Completes? && proposal == rounds[i].turn.submitted
      ensures !goesOn ==> Explored(definition, root, prior, rounds, i, results, o, None)
      ensures o.Cancelled? || o.Raised? ==> InStep(None)
      ensures store.power.None? == old(store.power).None? && (o.Crashed? ==> store.power.Some?)
    {
      var round := rounds[i];
      hide Idle, Reaches, Durable, History, Fold, Log, Played, StillProposing, Explored;
      RoundEnds(definition, root, prior, rounds, i, results);
      if round.expired || round.stopped {
        return Done("budget_expired"), None, false;
      }
      if round.plateau {
        return Done("plateau"), None, false;
      }
      ghost var middle := store.disk;
      var proposed := Propose(round.turn);
      ReachesOnwards(definition, root, store.codec, before, middle, store.disk);
      if proposed.Crashed? {
        return Crashed, None, false;
      }
      TurnEnds(definition, root, prior, rounds, i, results, proposed);
      match proposed
      case Cancelled =>
        return if round.turn.stopRequested then Done("budget_expired") else Cancelled, None, false;
      case Raised(error) =>
        return if error.BudgetExpired? then Done("budget_expired") else Raised(error), None, false;
      case Done(submitted) => return Done(""), submitted, true;
    }

    /**
     * Plan and evaluate until the budget, a stop, a plateau or three empty turns end the search. `played`
     * rounds were played in full, and `results` are what was recorded.
     */
    method Explore(rounds: seq<Round>)
      returns (o: Outcome<string>, ghost played: nat, ghost results: seq<ExperimentResult>, ghost cut: Option<Evaluation>)
      requires Ready()
      modifies this, store
      ensures Since(old(store.disk))
      ensures o.Done? ==> Ready()
      ensures Explored(definition, root, History(store.codec, old(store.disk)), rounds, played, results, o, cut)
      ensures !o.Crashed? ==> History(store.codec, store.disk) == History(store.codec, old(store.disk)) + results
      ensures o.Cancelled? || o.Raised? ==> InStep(cut)
      ensures !o.Cancelled? ==> cut.None?
      ensures store.power.None? == old(store.power).None? && (o.Crashed? ==> store.power.Some?)
    {
      hide EmptyRun, Played, StillProposing, Explored, Trailing, Planning, EndsFor, OutOfTime;
      hide Idle, Reaches, Durable, History, Fold, InStep;
      ghost var before, prior := store.disk, History(store.codec, store.disk);
      ReachesItself(definition, root, store.codec, before);
      results, cut := [], None;
      var emptyTurns: nat := 0;
      NothingPlayed(definition, root, prior, rounds);
      hide Ready, Since;
      for i := 0 to |rounds|
        invariant store.power.None? == old(store.power).None? && cut.None?
        invariant Since(before) && Ready() && History(store.codec, store.disk) == prior + results
        invariant Played(definition, root, prior, rounds, i, results)
        invariant emptyTurns < 3 && Trailing(rounds, i, emptyTurns) && StillProposing(rounds, i)
      {
        var planned, proposal, goesOn := PlanRound(rounds, i, before, prior, results);
        if !goesOn {
          return planned, i, results, None;
        }
        TrailingNext(rounds, i, emptyTurns);
        if proposal.None? {
          PlayedSilent(definition, root, prior, rounds, i, results);
          emptyTurns := emptyTurns + 1;
          if emptyTurns >= 3 {
            ThirdEmptyTurn(definition, root, prior, rounds, i + 1, results);
            return Done("agent_did_not_propose"), i + 1, results, None;
          }
        } else {
          emptyTurns := 0;
          var evaluated;
          evaluated, results, cut := TryProposal(rounds, i, before, prior, results);
          if !evaluated.Done? {
            return AsReason(evaluated), i, results, cut;
          }
        }
      }
      NoRoundLeft(definition, root, prior, rounds, results);
      return Done("budget_expired"), |rounds|, results, None;
    }

    /** Baselines first, then the search proper. */
    method Search(script: Script) returns (o: Outcome<string>, ghost course: Course)
      requires Ready()
      modifies this, store
      ensures Since(old(store.disk))
      ensures o.Done? ==> Ready()
      ensures Searched(definition, root, History(store.codec, old(store.disk)), script, course, o)
      ensures !o.Crashed? ==>
                History(store.codec, store.disk) == History(store.codec, old(store.disk)) + course.tried + course.found
      ensures o.Cancelled? || o.Raised? ==> InStep(course.cut)
      ensures !o.Cancelled? ==> course.cut.None?
      ensures store.power.None? == old(store.power).None? && (o.Crashed? ==> store.power.Some?)
    {
      ghost var before, prior := store.disk, History(store.codec, store.disk);
      ReachesItself(definition, root, store.codec, before);
      hide Idle, Reaches, Durable, History, Fold, BaselinesTried, InStep, Explored;
      course := Course([], Done(()), 0, [], Crashed, None);
      assert prior + [] == prior;
      if baseline.None? {
        var done;
        ghost var tried, cut;
        done, tried, cut := TryBaselines(script.baselines);
        course := Course(tried, done, 0, [], Crashed, cut);
        assert prior + tried + [] == prior + tried;
        match done
        case Raised(error) => return Raised(error), course;
        case Cancelled => return Cancelled, course;
        case Crashed => return Crashed, course;
        case Done(_) =>
      }
      ghost var middle := store.disk;
      ghost var played, found, cut;
      o, played, found, cut := Explore(script.rounds);
      course := course.(played := played, found := found, explored := o, cut := cut);
      ReachesOnwards(definition, root, store.codec, before, middle, store.disk);
      if o.Done? && script.stopped {
        o := Done("manual_stop");
      }
    }

    /** The record a run closes with. */
    ghost predicate ClosedWith(reason: string, named: Option<int>)
      reads store
    {
      var n := |store.disk.journal|;
      n > 0 && PayloadOf(store.disk.journal[n - 1]) == SearchStopped(reason, named)
    }

    /** The closing steps of a run, whatever ended it. */
    method Close(script: Script, reason: string) returns (o: Outcome<()>)
      requires Kept()
      modifies store
      ensures Since(old(store.disk))
      ensures Idle(old(store.disk)) ==> Idle(store.disk)
      ensures History(store.codec, store.disk) == History(store.codec, old(store.disk))
      ensures o.Done? ==>
                && store.disk == Appended(store.codec, old(store.disk), script.at, SearchStopped(reason, IdOf(best)))
                && ClosedWith(reason, IdOf(best))
      ensures o.Raised? || o.Cancelled? ==> store.disk == old(store.disk)
      ensures !o.Crashed? ==> o == match script.closing
                                   case Broken(message) => Raised(ClosingFailed(message))
                                   case Torn => Cancelled
                                   case Cleaned => Done(())
      ensures store.power.None? == old(store.power).None? && (o.Crashed? ==> store.power.Some?)
    {
      ReachesItself(definition, root, store.codec, store.disk);
      match script.closing
      case Broken(message) => return Raised(ClosingFailed(message));
      case Torn => return Cancelled;
      case Cleaned =>
        var alive := Record(script.at, SearchStopped(reason, IdOf(best)));
        return if alive then Done(()) else Crashed;
    }

    /**
     * What the closing record names when the search did not come to its regular end: the best the memory
     * knew, which is the recorded best if and only if no accepted result was cut short after being recorded.
     */
    ghost predicate ClosedShort(reason: string, cut: Option<Evaluation>)
      reads store
    {
      var history := History(store.codec, store.disk);
      var named := IdOf(Fold(definition, Known(history, cut)).best);
      && (cut.Some? ==> CutShort(definition, root, history, cut.value))
      && ClosedWith(reason, named)
      && (named == IdOf(Fold(definition, history).best) <==>
            (cut.Some? ==> !history[|history| - 1].decision.accepted))
    }

    /** What a run that returns answers: what the records say, and the closing record names the best. */
    ghost predicate Answered(outcome: SearchOutcome)
      reads this, store
    {
      var s := Fold(definition, History(store.codec, store.disk));
      && Ready()
      && outcome.best == s.best && outcome.baseline == s.baseline
      && outcome.experiments == |History(store.codec, store.disk)|
      && ClosedWith(outcome.reason, IdOf(outcome.best))
    }

    /** Recover, and record that the search starts. */
    method StartUp(at: int) returns (alive: bool)
      requires Kept() && State() == FRESH
      modifies this, store
      ensures Since(old(store.disk))
      ensures alive ==> Ready() && History(store.codec, store.disk) == RecoveredHistory(store.codec, old(store.disk))
      ensures store.power.None? == old(store.power).None? && (!alive ==> store.power.Some?)
    {
      ghost var before := store.disk;
      hide Idle, Reaches, Durable, History, Fold, RecoveredHistory;
      var recovered := Recover(at);
      if !recovered.Done? {
        return false;
      }
      ghost var middle := store.disk;
      alive := Record(at, SearchStarted);
      ReachesOnwards(definition, root, store.codec, before, middle, store.disk);
    }

    /** The records a run closes with: the controller's error, if any, and the end, once the backend is closed. */
    function Closing(d: Disk<F>, at: int, closing: Cleanup, searched: Outcome<string>, named: Option<int>): Disk<F> {
      var noted := if searched.Raised? then Appended(store.codec, d, at, ControllerError("error")) else d;
      if closing.Cleaned? then Appended(store.codec, noted, at, SearchStopped(ReasonOf(searched), named)) else noted
    }

    /** Record a controller error if there was one, close the backend, and record that the search stopped. */
    method WindUp(script: Script, searched: Outcome<string>, ghost cut: Option<Evaluation>) returns (o: Outcome<SearchOutcome>)
      requires Kept() && !searched.Crashed? && (searched.Done? ==> Ready())
      requires searched.Cancelled? || searched.Raised? ==> InStep(cut)
      modifies store
      ensures Since(old(store.disk))
      ensures History(store.codec, store.disk) == History(store.codec, old(store.disk))
      ensures !o.Crashed? ==>
                && Answers(script.closing, searched, o)
                && store.disk == Closing(old(store.disk), script.at, script.closing, searched, IdOf(best))
      ensures o.Done? ==> Answered(o.value)
      ensures !o.Crashed? && !searched.Done? && script.closing.Cleaned? ==> ClosedShort(ReasonOf(searched), cut)
      ensures store.power.None? == old(store.power).None? && (o.Crashed? ==> store.power.Some?)
    {
      ghost var before := store.disk;
      ReachesItself(definition, root, store.codec, before);
      hide Idle, Reaches, Durable, History, Fold, CutShort, Known, ClosedWith, ClosedShort, Answered;
      var reason := ReasonOf(searched);
      if searched.Raised? {
        var alive := Record(script.at, ControllerError("error"));
        if !alive {
          return Crashed;
        }
      }
      ghost var middle := store.disk;
      var closed := Close(script, reason);
      ReachesOnwards(definition, root, store.codec, before, middle, store.disk);
      match closed
      case Raised(error) => return Raised(error);
      case Cancelled => return Cancelled;
      case Crashed => return Crashed;
      case Done(_) =>
        match searched
        case Raised(error) =>
          ShortClosing(reason, cut);
          return Raised(error);
        case Cancelled =>
          ShortClosing(reason, cut);
          return Cancelled;
        case Done(_) =>
          var answer := Answer(reason);
          return Done(answer);
    }

    lemma ShortClosing(reason: string, cut: Option<Evaluation>)
      requires Kept() && InStep(cut) && ClosedWith(reason, IdOf(best))
      ensures ClosedShort(reason, cut)
    {
      CutShortSome(definition, root, History(store.codec, store.disk), cut);
      NamedBest(definition, root, store.codec, store.disk, cut);
      hide Durable, History, Fold, CutShort, Known, ClosedWith;
    }

    method Answer(reason: string) returns (outcome: SearchOutcome)
      requires Ready() && ClosedWith(reason, IdOf(best))
      ensures outcome.reason == reason && Answered(outcome)
    {
      hide Durable, History, Fold, ClosedWith;
      var count := Count();
      outcome := SearchOutcome(best, baseline, reason, count);
    }

    /**
     * One controller's whole run on whatever directory it finds. However it ends, the directory is
     * one that enabled writes lead to. Unless the controller dies, `course` and `searched` tell how the
     * search went, its results are recorded behind those recovered, and the answer follows; if the run
     * returns, the answer is what the records say, and if not, the closing record may name an older
     * best, exactly when an accepted result was cut short.
     */
    method Run(script: Script) returns (o: Outcome<SearchOutcome>, ghost course: Course, ghost searched: Outcome<string>)
      requires Kept() && State() == FRESH
      modifies this, store
      ensures Since(old(store.disk))
      ensures
        var prior := RecoveredHistory(store.codec, old(store.disk));
        !o.Crashed? ==>
          && !searched.Crashed? && Searched(definition, root, prior, script, course, searched)
          && History(store.codec, store.disk) == prior + course.tried + course.found
          && Answers(script.closing, searched, o)
      ensures o.Done? ==> Answered(o.value)
      ensures !o.Crashed? && !searched.Done? && script.closing.Cleaned? ==> ClosedShort(ReasonOf(searched), course.cut)
      ensures store.power.None? == old(store.power).None? && (o.Crashed? ==> store.power.Some?)
    {
      ghost var before := store.disk;
      hide Idle, Reaches, Durable, History, Fold, RecoveredHistory, InStep, ClosedShort, Answered, Searched, Answers;
      course, searched := Course([], Done(()), 0, [], Crashed, None), Crashed;
      var alive := StartUp(script.at);
      if !alive {
        return Crashed, course, searched;
      }
      ghost var d1 := store.disk;
      var ended;
      ended, course := Search(script);
      searched := ended;
      ReachesOnwards(definition, root, store.codec, before, d1, store.disk);
      if ended.Crashed? {
        return Crashed, course, searched;
      }
      ghost var d2 := store.disk;
      o := WindUp(script, ended, course.cut);
      ReachesOnwards(definition, root, store.codec, before, d2, store.disk);
    }

    method Count() returns (n: nat)
      requires Kept()
      ensures n == |History(store.codec, store.disk)|
    {
      DurableReadable(definition, root, store.codec, store.disk);
      var results := store.Results();
      match results
      case Ok(rs) => return |rs|;
      case Err(_) =>
    }
  }

  lemma SomeTrials(policy: Policy)
    requires policy.Valid()
    ensures |policy.levels| * policy.repetitions > 0
  {
  }
}

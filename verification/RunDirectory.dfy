/**
 * The run directory as a value, the atomic writes a controller performs on it, and what every
 * sequence of those writes preserves. A crash is the end of such a sequence; resuming starts another.
 */
module RunDirectory {
  import opened Common
  import opened Schemas
  import opened Verifier
  import opened Search
  import opened Journal

  /**
   * Serialisation and digests, over whatever file contents are made of. `stamp` fingerprints an
   * event, `sha` the contents of a file.
   */
  datatype Codec<!F> = Codec(
    stamp: Stamp, sha: F -> Digest, proposal: Proposal -> Digest,
    encode: ExperimentResult -> F, decode: F -> Option<ExperimentResult>,
    measurement: Benchmark -> F, transcript: string -> F)
  {
    ghost predicate RoundTrips() {
      forall r :: decode(encode(r)) == Some(r)
    }
  }

  /** Contents that are what they mean, and anything else that may lie in a file. */
  datatype Contents = OfResult(result: ExperimentResult) | OfMeasurement(measured: Benchmark) | OfText(text: string)

  /** Round trips are possible, with any digests: contents that are what they mean have them. */
  lemma SomeCodec(stamp: Stamp, sha: Contents -> Digest, proposal: Proposal -> Digest) returns (codec: Codec<Contents>)
    ensures codec.RoundTrips()
    ensures codec.stamp == stamp && codec.sha == sha && codec.proposal == proposal
  {
    codec := Codec(stamp, sha, proposal,
      (r: ExperimentResult) => OfResult(r), (c: Contents) => if c.OfResult? then Some(c.result) else None, (b: Benchmark) => OfMeasurement(b),
      (t: string) => OfText(t));
  }

  datatype Disk<F> = Disk(journal: seq<Line>, results: map<int, F>, artifacts: map<ArtifactKey, F>)

  function Empty<F>(): Disk<F> {
    Disk([], map[], map[])
  }

  /** Nothing already written is lost or altered. */
  ghost predicate Kept<K, V>(a: map<K, V>, b: map<K, V>) {
    forall k :: k in a ==> k in b && b[k] == a[k]
  }

  ghost predicate Extends<F(!new)>(before: Disk<F>, after: Disk<F>) {
    && before.journal <= after.journal
    && Kept(before.results, after.results)
    && Kept(before.artifacts, after.artifacts)
  }

  // ------------------------------------------------------------------ reading the directory

  /** The proposals recorded for starts of experiment `id`. */
  function StartsOf(log: seq<Payload>, id: int): seq<Proposal> {
    if log == [] then []
    else
      var last := log[|log| - 1];
      StartsOf(log[..|log| - 1], id) + (if last.Started? && last.id == id then [last.proposal] else [])
  }

  predicate IsFinished(log: seq<Payload>, id: int) {
    exists p :: p in log && p.Finished? && p.id == id
  }

  /** A result file that matches its journal record, or nothing. */
  function ReadResult<F(==, !new)>(codec: Codec<F>, results: map<int, F>, id: int, sha: Digest): Option<ExperimentResult> {
    if id < 1 || id !in results || codec.sha(results[id]) != sha then None
    else
      var r := codec.decode(results[id]);
      if r.Some? && r.value.id == id then r else None
  }

  /** Every finished experiment's result in journal order, or nothing if any is missing or altered. */
  function Recorded<F(==, !new)>(codec: Codec<F>, log: seq<Payload>, results: map<int, F>): Option<seq<ExperimentResult>> {
    if log == [] then Some([])
    else
      var earlier := Recorded(codec, log[..|log| - 1], results);
      var last := log[|log| - 1];
      if earlier.None? || !last.Finished? then earlier
      else
        var r := ReadResult(codec, results, last.id, last.sha);
        if r.None? then None else Some(earlier.value + [r.value])
  }

  /** The recorded results of a directory whose records are all intact. */
  function History<F(==, !new)>(codec: Codec<F>, d: Disk<F>): seq<ExperimentResult> {
    var recorded := Recorded(codec, Log(d.journal), d.results);
    if recorded.Some? then recorded.value else []
  }

  // ------------------------------------------------------------------ the invariant

  /** A result file holds a decodable result of an experiment that was started with that proposal. */
  predicate Stored<F(==, !new)>(codec: Codec<F>, log: seq<Payload>, id: int, data: F) {
    && 1 <= id <= StartCount(log)
    && codec.decode(data).Some?
    && var r := codec.decode(data).value;
       && r.id == id && codec.encode(r) == data
       && |StartsOf(log, id)| == 1 && codec.proposal(StartsOf(log, id)[0]) == codec.proposal(r.proposal)
  }

  predicate KeyFits(log: seq<Payload>, key: ArtifactKey) {
    match key
    case TurnFile(n) => 1 <= n <= TurnCount(log) + 1
    case BenchmarkFile(id, _, _) => 1 <= id <= StartCount(log)
  }

  /** A recorded agent turn has its transcript, unaltered. */
  predicate TranscriptKept<F(==, !new)>(codec: Codec<F>, artifacts: map<ArtifactKey, F>, p: Payload) {
    p.AgentTurn? ==> p.artifact in artifacts && codec.sha(artifacts[p.artifact]) == p.sha
  }

  ghost predicate FilesStored<F(!new)>(codec: Codec<F>, log: seq<Payload>, results: map<int, F>) {
    forall id :: id in results ==> Stored(codec, log, id, results[id])
  }

  ghost predicate ArtifactsStored<F(!new)>(codec: Codec<F>, log: seq<Payload>, artifacts: map<ArtifactKey, F>) {
    && (forall key :: key in artifacts ==> KeyFits(log, key))
    && (forall p :: p in log ==> TranscriptKept(codec, artifacts, p))
  }

  /** A result written but not yet journalled was judged against the recorded history. */
  ghost predicate PendingJudged<F(!new)>(
      def: Definition, root: Root, codec: Codec<F>, log: seq<Payload>, results: map<int, F>, history: seq<ExperimentResult>)
  {
    var id := FinishCount(log) + 1;
    id in results && codec.decode(results[id]).Some? ==> WellJudged(def, root, history, codec.decode(results[id]).value)
  }

  /** What every crash point leaves behind. */
  ghost predicate Durable<F(!new)>(def: Definition, root: Root, codec: Codec<F>, d: Disk<F>) {
    && Chained(codec.stamp, d.journal)
    && Consistent(def, root, codec, Log(d.journal), d.results, d.artifacts)
  }

  ghost predicate Consistent<F(!new)>(
      def: Definition, root: Root, codec: Codec<F>, log: seq<Payload>, results: map<int, F>,
      artifacts: map<ArtifactKey, F>)
  {
    && WellOrdered(log)
    && FilesStored(codec, log, results)
    && ArtifactsStored(codec, log, artifacts)
    && var recorded := Recorded(codec, log, results);
       && recorded.Some?
       && WellJudgedHistory(def, root, recorded.value)
       && PendingJudged(def, root, codec, log, results, recorded.value)
  }

  // ------------------------------------------------------------------ the writes

  /** One atomic write by the controller. `Begin`, `Commit`, `Turn` and `Note` append a journal record. */
  datatype Action<F> =
    | Note(at: int, payload: Payload)
    | Begin(at: int, proposal: Proposal)
    | Measure(concurrency: int, trial: int, text: F)
    | Write(result: ExperimentResult)
    | Commit(at: int)
    | Transcript(text: F)
    | Turn(at: int, text: F, submitted: bool)

  function NextTurn(log: seq<Payload>): ArtifactKey {
    TurnFile(TurnCount(log) + 1)
  }

  predicate Free<K, V(==)>(files: map<K, V>, key: K, data: V) {
    key in files ==> files[key] == data
  }

  /** What the controller and the store establish before each write. */
  ghost predicate Enabled<F(!new)>(def: Definition, root: Root, codec: Codec<F>, d: Disk<F>, a: Action<F>) {
    var log := Log(d.journal);
    match a
    case Note(_, payload) => !payload.Started? && !payload.Finished? && !payload.AgentTurn?
    case Begin(_, _) => FinishCount(log) == StartCount(log)
    case Measure(c, t, text) =>
      FinishCount(log) < StartCount(log) && Free(d.artifacts, BenchmarkFile(StartCount(log), c, t), text)
    case Write(r) =>
      && FinishCount(log) < StartCount(log) && r.id == StartCount(log)
      && Free(d.results, r.id, codec.encode(r))
      && |StartsOf(log, r.id)| == 1 && codec.proposal(StartsOf(log, r.id)[0]) == codec.proposal(r.proposal)
      && WellJudged(def, root, History(codec, d), r)
    case Commit(_) => FinishCount(log) < StartCount(log) && StartCount(log) in d.results
    case Transcript(text) => Free(d.artifacts, NextTurn(log), text)
    case Turn(_, text, _) => NextTurn(log) in d.artifacts && d.artifacts[NextTurn(log)] == text
  }

  /** The record a journal action appends. */
  function RecordOf<F(==, !new)>(codec: Codec<F>, d: Disk<F>, a: Action<F>): Payload
    requires !a.Measure? && !a.Write? && !a.Transcript?
    requires a.Commit? ==> StartCount(Log(d.journal)) in d.results
  {
    var log := Log(d.journal);
    match a
    case Note(_, payload) => payload
    case Begin(_, proposal) => Started(StartCount(log) + 1, proposal)
    case Commit(_) => Finished(StartCount(log), codec.sha(d.results[StartCount(log)]))
    case Turn(_, text, submitted) => AgentTurn(NextTurn(log), codec.sha(text), submitted)
  }

  function Appended<F(==, !new)>(codec: Codec<F>, d: Disk<F>, at: int, payload: Payload): Disk<F> {
    d.(journal := d.journal + [NextLine(codec.stamp, d.journal, at, payload)])
  }

  function Saved<F(==, !new)>(d: Disk<F>, key: ArtifactKey, text: F): Disk<F> {
    d.(artifacts := d.artifacts[key := text])
  }

  function Apply<F(==, !new)>(codec: Codec<F>, d: Disk<F>, a: Action<F>): Disk<F> {
    var log := Log(d.journal);
    match a
    case Measure(c, t, text) => Saved(d, BenchmarkFile(StartCount(log), c, t), text)
    case Write(r) => d.(results := d.results[r.id := codec.encode(r)])
    case Transcript(text) => Saved(d, NextTurn(log), text)
    case Commit(at) =>
      if StartCount(log) in d.results then Appended(codec, d, at, RecordOf(codec, d, a)) else d
    case Note(at, _) => Appended(codec, d, at, RecordOf(codec, d, a))
    case Begin(at, _) => Appended(codec, d, at, RecordOf(codec, d, a))
    case Turn(at, _, _) => Appended(codec, d, at, RecordOf(codec, d, a))
  }

  // ------------------------------------------------------------------ reading is stable under more writes

  lemma {:induction false} RecordedKept<F(!new)>(codec: Codec<F>, log: seq<Payload>, before: map<int, F>, after: map<int, F>)
    requires Recorded(codec, log, before).Some? && Kept(before, after)
    ensures Recorded(codec, log, after) == Recorded(codec, log, before)
  {
    if log != [] {
      RecordedKept(codec, log[..|log| - 1], before, after);
    }
  }

  lemma RecordedNext<F(!new)>(codec: Codec<F>, log: seq<Payload>, p: Payload, results: map<int, F>)
    requires Recorded(codec, log, results).Some?
    ensures
      Recorded(codec, log + [p], results) ==
        if !p.Finished? then Recorded(codec, log, results)
        else
          var r := ReadResult(codec, results, p.id, p.sha);
          if r.None? then None else Some(Recorded(codec, log, results).value + [r.value])
  {
    assert (log + [p])[..|log|] == log;
  }

  lemma {:induction false} RecordedPrefix<F(!new)>(codec: Codec<F>, log: seq<Payload>, results: map<int, F>, n: nat)
    requires Recorded(codec, log, results).Some? && n <= |log|
    ensures Recorded(codec, log[..n], results).Some?
    ensures Recorded(codec, log[..n], results).value <= Recorded(codec, log, results).value
    decreases |log|
  {
    if n == |log| {
      assert log[..n] == log;
    } else {
      RecordedPrefix(codec, log[..|log| - 1], results, n);
      assert log[..|log| - 1][..n] == log[..n];
    }
  }

  /** The recorded results are those of experiments 1, 2, 3, … in order. */
  lemma {:induction false} RecordedIds<F(!new)>(codec: Codec<F>, log: seq<Payload>, results: map<int, F>)
    requires WellOrdered(log) && Recorded(codec, log, results).Some?
    ensures
      var rs := Recorded(codec, log, results).value;
      |rs| == FinishCount(log) && forall i :: 0 <= i < |rs| ==> rs[i].id == i + 1
  {
    if log != [] {
      RecordedIds(codec, log[..|log| - 1], results);
    }
  }

  lemma StartsNext(log: seq<Payload>, p: Payload, id: int)
    ensures StartsOf(log + [p], id) == StartsOf(log, id) + (if p.Started? && p.id == id then [p.proposal] else [])
  {
    assert (log + [p])[..|log|] == log;
  }

  lemma {:induction false} NotStartedYet(log: seq<Payload>, id: int)
    requires WellOrdered(log) && id > StartCount(log)
    ensures StartsOf(log, id) == []
  {
    if log != [] {
      NotStartedYet(log[..|log| - 1], id);
    }
  }

  /** Every experiment up to the last started one was started exactly once. */
  lemma {:induction false} StartedOnce(log: seq<Payload>, id: int)
    requires WellOrdered(log) && 1 <= id <= StartCount(log)
    ensures |StartsOf(log, id)| == 1
  {
    var n := |log| - 1;
    if id <= StartCount(log[..n]) {
      StartedOnce(log[..n], id);
    } else {
      NotStartedYet(log[..n], id);
    }
  }

  /** Exactly the experiments up to the last finished one are finished. */
  lemma {:induction false} FinishedUpTo(log: seq<Payload>, id: int)
    requires WellOrdered(log)
    ensures IsFinished(log, id) <==> 1 <= id <= FinishCount(log)
  {
    if log != [] {
      var n := |log| - 1;
      FinishedUpTo(log[..n], id);
      assert log == log[..n] + [log[n]];
    }
  }

  // ------------------------------------------------------------------ every write preserves the invariant

  lemma FilesNext<F(!new)>(codec: Codec<F>, log: seq<Payload>, p: Payload, results: map<int, F>)
    requires FilesStored(codec, log, results)
    requires p.Started? ==> p.id == StartCount(log) + 1
    ensures FilesStored(codec, log + [p], results)
  {
    CountsNext(log, p);
    forall id | id in results ensures Stored(codec, log + [p], id, results[id]) {
      assert Stored(codec, log, id, results[id]);
      StartsNext(log, p, id);
    }
  }

  lemma ArtifactsNext<F(!new)>(codec: Codec<F>, log: seq<Payload>, p: Payload, artifacts: map<ArtifactKey, F>)
    requires ArtifactsStored(codec, log, artifacts) && TranscriptKept(codec, artifacts, p)
    ensures ArtifactsStored(codec, log + [p], artifacts)
  {
    CountsNext(log, p);
    assert forall q :: q in log + [p] ==> q in log || q == p;
    assert forall key :: key in artifacts ==> KeyFits(log, key);
  }

  lemma ArtifactsSaved<F(!new)>(codec: Codec<F>, log: seq<Payload>, artifacts: map<ArtifactKey, F>, key: ArtifactKey, text: F)
    requires ArtifactsStored(codec, log, artifacts) && KeyFits(log, key) && Free(artifacts, key, text)
    ensures ArtifactsStored(codec, log, artifacts[key := text])
  {
    forall p | p in log ensures TranscriptKept(codec, artifacts[key := text], p) {
      assert TranscriptKept(codec, artifacts, p);
    }
  }

  lemma PendingSame<F(!new)>(
      def: Definition, root: Root, codec: Codec<F>, log: seq<Payload>, next: seq<Payload>, results: map<int, F>,
      history: seq<ExperimentResult>)
    requires PendingJudged(def, root, codec, log, results, history) && FinishCount(next) == FinishCount(log)
    ensures PendingJudged(def, root, codec, next, results, history)
  {
    hide WellJudged;
  }

  lemma NothingPending<F(!new)>(
      def: Definition, root: Root, codec: Codec<F>, log: seq<Payload>, results: map<int, F>,
      history: seq<ExperimentResult>)
    requires FilesStored(codec, log, results) && FinishCount(log) == StartCount(log)
    ensures PendingJudged(def, root, codec, log, results, history)
  {
    FilesBounded(codec, log, results);
    hide WellJudged;
  }

  /** A record that does not finish an experiment. */
  lemma RecordKeeps<F(!new)>(
      def: Definition, root: Root, codec: Codec<F>, log: seq<Payload>, results: map<int, F>,
      artifacts: map<ArtifactKey, F>, p: Payload)
    requires Consistent(def, root, codec, log, results, artifacts)
    requires Follows(log, p) && !p.Finished? && TranscriptKept(codec, artifacts, p)
    ensures Consistent(def, root, codec, log + [p], results, artifacts)
  {
    WellOrderedNext(log, p);
    CountsNext(log, p);
    RecordedNext(codec, log, p, results);
    FilesNext(codec, log, p, results);
    ArtifactsNext(codec, log, p, artifacts);
    PendingSame(def, root, codec, log, log + [p], results, Recorded(codec, log, results).value);
    hide FilesStored, ArtifactsStored, WellJudgedHistory, WellOrdered, Recorded, Follows, PendingJudged;
  }

  /** The pending result, as the file on disk has it. */
  lemma PendingRead<F(!new)>(
      def: Definition, root: Root, codec: Codec<F>, log: seq<Payload>, results: map<int, F>, history: seq<ExperimentResult>)
    requires FilesStored(codec, log, results) && PendingJudged(def, root, codec, log, results, history)
    requires FinishCount(log) + 1 == StartCount(log) && StartCount(log) in results
    ensures
      var id := StartCount(log);
      var r := ReadResult(codec, results, id, codec.sha(results[id]));
      r.Some? && WellJudged(def, root, history, r.value)
  {
    assert Stored(codec, log, StartCount(log), results[StartCount(log)]);
    hide WellJudged, StartsOf;
  }

  /** Journalling the pending result turns it into the newest recorded one. */
  lemma CommitKeeps<F(!new)>(
      def: Definition, root: Root, codec: Codec<F>, log: seq<Payload>, results: map<int, F>,
      artifacts: map<ArtifactKey, F>)
    requires Consistent(def, root, codec, log, results, artifacts)
    requires FinishCount(log) < StartCount(log) && StartCount(log) in results
    ensures
      var p := Finished(StartCount(log), codec.sha(results[StartCount(log)]));
      Consistent(def, root, codec, log + [p], results, artifacts)
  {
    var id := StartCount(log);
    var p := Finished(id, codec.sha(results[id]));
    var history := Recorded(codec, log, results).value;
    AtMostOnePending(log);
    WellOrderedNext(log, p);
    CountsNext(log, p);
    RecordedNext(codec, log, p, results);
    FilesNext(codec, log, p, results);
    ArtifactsNext(codec, log, p, artifacts);
    PendingRead(def, root, codec, log, results, history);
    var r := ReadResult(codec, results, id, p.sha).value;
    WellJudgedNext(def, root, history, r);
    NothingPending(def, root, codec, log + [p], results, history + [r]);
    hide FilesStored, ArtifactsStored, WellJudgedHistory, WellOrdered, Recorded, PendingJudged, ReadResult, WellJudged;
  }

  lemma FilesBounded<F(!new)>(codec: Codec<F>, log: seq<Payload>, results: map<int, F>)
    requires FilesStored(codec, log, results)
    ensures forall id :: id in results ==> 1 <= id <= StartCount(log)
  {
    assert forall id :: id in results ==> Stored(codec, log, id, results[id]);
  }

  /** Writing the pending experiment's result, new or again. */
  lemma WriteKeeps<F(!new)>(
      def: Definition, root: Root, codec: Codec<F>, log: seq<Payload>, results: map<int, F>,
      artifacts: map<ArtifactKey, F>, r: ExperimentResult)
    requires Consistent(def, root, codec, log, results, artifacts) && codec.RoundTrips()
    requires FinishCount(log) < StartCount(log) && r.id == StartCount(log) && Free(results, r.id, codec.encode(r))
    requires |StartsOf(log, r.id)| == 1 && codec.proposal(StartsOf(log, r.id)[0]) == codec.proposal(r.proposal)
    requires WellJudged(def, root, Recorded(codec, log, results).value, r)
    ensures Consistent(def, root, codec, log, results[r.id := codec.encode(r)], artifacts)
  {
    var data := codec.encode(r);
    var after := results[r.id := data];
    AtMostOnePending(log);
    RecordedKept(codec, log, results, after);
    forall id | id in after ensures Stored(codec, log, id, after[id]) {
      assert id != r.id ==> Stored(codec, log, id, results[id]);
    }
    assert FilesStored(codec, log, after);
    hide FilesStored, ArtifactsStored, WellJudgedHistory, WellOrdered, FinishCount, Recorded, WellJudged, StartsOf;
  }

  lemma HistoryIs<F(!new)>(codec: Codec<F>, d: Disk<F>)
    requires Recorded(codec, Log(d.journal), d.results).Some?
    ensures History(codec, d) == Recorded(codec, Log(d.journal), d.results).value
  {
  }

  lemma AppendKeeps<F(!new)>(
      def: Definition, root: Root, codec: Codec<F>, d: Disk<F>, at: int, p: Payload)
    requires Durable(def, root, codec, d)
    requires Consistent(def, root, codec, Log(d.journal) + [p], d.results, d.artifacts)
    ensures Durable(def, root, codec, Appended(codec, d, at, p)) && Extends(d, Appended(codec, d, at, p))
  {
    hide Consistent;
    ChainGrows(codec.stamp, d.journal, NextLine(codec.stamp, d.journal, at, p));
    LogNext(codec.stamp, d.journal, at, p);
  }

  /** One enabled write keeps the directory durable and loses nothing. */
  lemma ActionKeeps<F(!new)>(def: Definition, root: Root, codec: Codec<F>, d: Disk<F>, a: Action<F>)
    requires Durable(def, root, codec, d) && codec.RoundTrips() && Enabled(def, root, codec, d, a)
    ensures Durable(def, root, codec, Apply(codec, d, a)) && Extends(d, Apply(codec, d, a))
  {
    var log := Log(d.journal);
    HistoryIs(codec, d);
    hide Chained, Log, WellJudged, StartsOf, Recorded;
    if a.Measure? || a.Transcript? {
      var key := if a.Measure? then BenchmarkFile(StartCount(log), a.concurrency, a.trial) else NextTurn(log);
      CountBounds(log);
      ArtifactsSaved(codec, log, d.artifacts, key, a.text);
    } else if a.Write? {
      WriteKeeps(def, root, codec, log, d.results, d.artifacts, a.result);
    } else if a.Commit? {
      CommitKeeps(def, root, codec, log, d.results, d.artifacts);
      AppendKeeps(def, root, codec, d, a.at, RecordOf(codec, d, a));
    } else {
      RecordKeeps(def, root, codec, log, d.results, d.artifacts, RecordOf(codec, d, a));
      AppendKeeps(def, root, codec, d, a.at, RecordOf(codec, d, a));
    }
  }

  lemma CountBounds(log: seq<Payload>)
    ensures StartCount(log) >= 0 && TurnCount(log) >= 0 && FinishCount(log) >= 0
  {
  }

  // ------------------------------------------------------------------ whole runs, with a crash after any write

  ghost predicate Admissible<F(!new)>(def: Definition, root: Root, codec: Codec<F>, d: Disk<F>, actions: seq<Action<F>>)
    decreases |actions|
  {
    actions == []
    || (Enabled(def, root, codec, d, actions[0]) && Admissible(def, root, codec, Apply(codec, d, actions[0]), actions[1..]))
  }

  function After<F(==, !new)>(codec: Codec<F>, d: Disk<F>, actions: seq<Action<F>>): Disk<F>
    decreases |actions|
  {
    if actions == [] then d else After(codec, Apply(codec, d, actions[0]), actions[1..])
  }

  /** `after` is left behind by some sequence of enabled writes, by one controller or several in turn. */
  ghost predicate Reaches<F(!new)>(def: Definition, root: Root, codec: Codec<F>, before: Disk<F>, after: Disk<F>) {
    exists actions :: Admissible(def, root, codec, before, actions) && After(codec, before, actions) == after
  }

  lemma {:induction false} AdmissibleJoin<F(!new)>(
      def: Definition, root: Root, codec: Codec<F>, d: Disk<F>, first: seq<Action<F>>, second: seq<Action<F>>)
    ensures Admissible(def, root, codec, d, first + second) <==>
              Admissible(def, root, codec, d, first) && Admissible(def, root, codec, After(codec, d, first), second)
    ensures After(codec, d, first + second) == After(codec, After(codec, d, first), second)
    decreases |first|
  {
    hide Enabled, Apply;
    if first == [] {
      assert first + second == second;
    } else {
      assert (first + second)[0] == first[0] && (first + second)[1..] == first[1..] + second;
      AdmissibleJoin(def, root, codec, Apply(codec, d, first[0]), first[1..], second);
    }
  }

  lemma ReachesItself<F(!new)>(def: Definition, root: Root, codec: Codec<F>, d: Disk<F>)
    ensures Reaches(def, root, codec, d, d)
  {
    assert Admissible(def, root, codec, d, []) && After(codec, d, []) == d;
  }

  lemma ReachesNext<F(!new)>(def: Definition, root: Root, codec: Codec<F>, d: Disk<F>, middle: Disk<F>, a: Action<F>)
    requires Reaches(def, root, codec, d, middle) && Enabled(def, root, codec, middle, a)
    ensures Reaches(def, root, codec, d, Apply(codec, middle, a))
  {
    var actions :| Admissible(def, root, codec, d, actions) && After(codec, d, actions) == middle;
    AdmissibleJoin(def, root, codec, d, actions, [a]);
    hide Enabled, Apply;
    assert [a][1..] == [];
    assert Admissible(def, root, codec, middle, [a]) && After(codec, middle, [a]) == Apply(codec, middle, a);
    assert Admissible(def, root, codec, d, actions + [a]);
  }

  lemma ReachesOnwards<F(!new)>(def: Definition, root: Root, codec: Codec<F>, a: Disk<F>, b: Disk<F>, c: Disk<F>)
    requires Reaches(def, root, codec, a, b) && Reaches(def, root, codec, b, c)
    ensures Reaches(def, root, codec, a, c)
  {
    hide Enabled, Apply, Admissible, After;
    var first :| Admissible(def, root, codec, a, first) && After(codec, a, first) == b;
    var second :| Admissible(def, root, codec, b, second) && After(codec, b, second) == c;
    AdmissibleJoin(def, root, codec, a, first, second);
    assert Admissible(def, root, codec, a, first + second);
  }

  lemma ExtendsOnwards<F(!new)>(a: Disk<F>, b: Disk<F>, c: Disk<F>)
    requires Extends(a, b) && Extends(b, c)
    ensures Extends(a, c)
  {
  }

  lemma {:induction false} RunKeeps<F(!new)>(def: Definition, root: Root, codec: Codec<F>, d: Disk<F>, actions: seq<Action<F>>)
    requires Durable(def, root, codec, d) && codec.RoundTrips() && Admissible(def, root, codec, d, actions)
    ensures Durable(def, root, codec, After(codec, d, actions)) && Extends(d, After(codec, d, actions))
    decreases |actions|
  {
    hide Enabled, Apply, Durable, Extends;
    if actions == [] {
      ExtendsItself(d);
    } else {
      ActionKeeps(def, root, codec, d, actions[0]);
      RunKeeps(def, root, codec, Apply(codec, d, actions[0]), actions[1..]);
      ExtendsOnwards(d, Apply(codec, d, actions[0]), After(codec, d, actions));
    }
  }

  lemma ExtendsItself<F(!new)>(d: Disk<F>)
    ensures Extends(d, d)
  {
  }

  lemma HistoryGrows<F(!new)>(codec: Codec<F>, before: Disk<F>, after: Disk<F>)
    requires Recorded(codec, Log(before.journal), before.results).Some?
    requires Recorded(codec, Log(after.journal), after.results).Some?
    requires Extends(before, after)
    ensures History(codec, before) <= History(codec, after)
  {
    var log := Log(before.journal);
    LogPrefix(before.journal, after.journal);
    RecordedKept(codec, log, before.results, after.results);
    RecordedPrefix(codec, Log(after.journal), after.results, |log|);
    assert Log(after.journal)[..|log|] == log;
  }

  lemma EmptyIsDurable<F(!new)>(def: Definition, root: Root, codec: Codec<F>)
    ensures Durable(def, root, codec, Empty())
  {
    assert Log(Empty<F>().journal) == [];
  }

  /** What a resuming controller finds, however the ones before it ended. */
  ghost predicate Resumable<F(!new)>(def: Definition, codec: Codec<F>, d: Disk<F>) {
    var log := Log(d.journal);
    && Chained(codec.stamp, d.journal)
    && StartedIds(log) == UpTo(StartCount(log)) && FinishedIds(log) == UpTo(FinishCount(log))
    && FinishCount(log) <= StartCount(log) <= FinishCount(log) + 1
    && |History(codec, d)| == FinishCount(log)
    && BestOfHistory(Fold(def, History(codec, d)).best, History(codec, d), def.policy.minimumImprovement)
  }

  lemma DurableResumable<F(!new)>(def: Definition, root: Root, codec: Codec<F>, d: Disk<F>)
    requires Durable(def, root, codec, d) && def.policy.minimumImprovement >= 0.0
    ensures Resumable(def, codec, d)
  {
    var log := Log(d.journal);
    IdsAreSequential(log);
    AtMostOnePending(log);
    RecordedIds(codec, log, d.results);
    BestDominates(def, root, History(codec, d));
    hide Chained, Log, WellJudgedHistory, Fold, BestOfHistory;
  }

  /**
   * Crash safety: cut a run of controllers after any number of writes, and the directory still
   * validates, has lost nothing, numbers its experiments consecutively with at most one pending,
   * and reports all earlier results unchanged.
   */
  lemma CrashSafety<F(!new)>(def: Definition, root: Root, codec: Codec<F>, d: Disk<F>, actions: seq<Action<F>>, n: nat)
    requires Durable(def, root, codec, d) && codec.RoundTrips() && Admissible(def, root, codec, d, actions)
    requires n <= |actions| && def.policy.minimumImprovement >= 0.0
    ensures
      var crashed := After(codec, d, actions[..n]);
      && Resumable(def, codec, crashed)
      && Extends(d, crashed) && Extends(crashed, After(codec, d, actions))
      && History(codec, d) <= History(codec, crashed) <= History(codec, After(codec, d, actions))
  {
    var crashed, end := After(codec, d, actions[..n]), After(codec, d, actions);
    assert actions == actions[..n] + actions[n..];
    AdmissibleJoin(def, root, codec, d, actions[..n], actions[n..]);
    hide Admissible, After, Enabled, Apply, Consistent;
    RunKeeps(def, root, codec, d, actions[..n]);
    RunKeeps(def, root, codec, crashed, actions[n..]);
    DurableResumable(def, root, codec, crashed);
    DurableReadable(def, root, codec, d);
    DurableReadable(def, root, codec, crashed);
    DurableReadable(def, root, codec, end);
    HistoryGrows(codec, d, crashed);
    HistoryGrows(codec, crashed, end);
  }

  lemma DurableReadable<F(!new)>(def: Definition, root: Root, codec: Codec<F>, d: Disk<F>)
    requires Durable(def, root, codec, d)
    ensures Recorded(codec, Log(d.journal), d.results).Some?
  {
  }

  /** The best result of any directory a run may leave behind makes a recipe the validator accepts. */
  lemma DurableBestDeployable<F(!new)>(def: Definition, root: Root, codec: Codec<F>, d: Disk<F>, fingerprint: Definition -> string)
    requires Durable(def, root, codec, d) && def.policy.minimumImprovement >= 0.0
    requires Fold(def, History(codec, d)).best.Some?
    ensures
      var best := Fold(def, History(codec, d)).best.value;
      Deployable(Recipe(fingerprint(def), best.id, def, best), fingerprint)
  {
    hide Fold, Deployable;
    BestIsDeployable(def, root, History(codec, d), fingerprint);
  }

  /** Accepted scores compound along the records of any run, with any number of resumptions. */
  lemma ScoresCompound<F(!new)>(def: Definition, root: Root, codec: Codec<F>, d: Disk<F>, actions: seq<Action<F>>, k: nat)
    requires Durable(def, root, codec, d) && codec.RoundTrips() && Admissible(def, root, codec, d, actions)
    requires def.policy.minimumImprovement >= 0.0 && k < |Accepted(History(codec, After(codec, d, actions)))|
    ensures
      var rs := Accepted(History(codec, After(codec, d, actions)));
      && rs[0].decision.score.Some? && rs[k].decision.score.Some?
      && rs[k].decision.score.value >= Compounded(rs[0].decision.score.value, def.policy.minimumImprovement, k)
  {
    RunKeeps(def, root, codec, d, actions);
    hide Admissible, After, Accepted, Compounded, Chained;
    AcceptedScoresCompound(def, root, History(codec, After(codec, d, actions)), k);
  }

  // ------------------------------------------------------------------ the transcript that blocks planning

  /** The next agent turn's transcript file already exists: a controller died between writing it and journalling it. */
  predicate Wedged<F(==, !new)>(d: Disk<F>, text: F) {
    NextTurn(Log(d.journal)) in d.artifacts && d.artifacts[NextTurn(Log(d.journal))] == text
  }

  /** A controller that dies right after writing a transcript leaves it without its record. */
  lemma DyingInATurnWedges<F(!new)>(codec: Codec<F>, d: Disk<F>, text: F)
    ensures Wedged(Apply(codec, d, Transcript(text)), text)
  {
  }

  lemma WedgeStep<F(!new)>(def: Definition, root: Root, codec: Codec<F>, d: Disk<F>, a: Action<F>, text: F)
    requires Wedged(d, text) && Enabled(def, root, codec, d, a)
    requires a.Transcript? || a.Turn? ==> a.text != text
    ensures !a.Transcript? && !a.Turn? && Wedged(Apply(codec, d, a), text)
    ensures TurnCount(Log(Apply(codec, d, a).journal)) == TurnCount(Log(d.journal))
  {
    var log := Log(d.journal);
    if a.Note? || a.Begin? || a.Commit? {
      LogNext(codec.stamp, d.journal, a.at, RecordOf(codec, d, a));
      CountsNext(log, RecordOf(codec, d, a));
    }
    hide Log, WellJudged, StartsOf;
  }

  /**
   * Once wedged, always wedged: unless an agent reproduces the lost turn's transcript exactly, no
   * controller, ever, records another turn.
   */
  lemma {:induction false} WedgePersists<F(!new)>(
      def: Definition, root: Root, codec: Codec<F>, d: Disk<F>, actions: seq<Action<F>>, text: F)
    requires Wedged(d, text) && Admissible(def, root, codec, d, actions)
    requires forall a :: a in actions && (a.Transcript? || a.Turn?) ==> a.text != text
    ensures forall a :: a in actions ==> !a.Transcript? && !a.Turn?
    ensures Wedged(After(codec, d, actions), text)
    ensures TurnCount(Log(After(codec, d, actions).journal)) == TurnCount(Log(d.journal))
    decreases |actions|
  {
    hide Enabled, Apply, Wedged;
    if actions != [] {
      WedgeStep(def, root, codec, d, actions[0], text);
      WedgePersists(def, root, codec, Apply(codec, d, actions[0]), actions[1..], text);
      assert actions == [actions[0]] + actions[1..];
    }
  }
}

/** The hash-chained experiment journal: what `events` accepts, and what the chain does and does not reveal. */
module Journal {
  import opened Common
  import opened Schemas

  type Digest = string

  const GENESIS: Digest := "0000000000000000000000000000000000000000000000000000000000000000"

  datatype ArtifactKey = TurnFile(turn: int) | BenchmarkFile(experiment: int, concurrency: int, trial: int)

  datatype Payload =
    | RunCreated(definition: Digest)
    | Started(id: int, proposal: Proposal)
    | Finished(id: int, sha: Digest)
    | AgentTurn(artifact: ArtifactKey, sha: Digest, submitted: bool)
    | SearchStarted
    | SearchStopped(reason: string, best: Option<int>)
    | ControllerError(error: string)

  datatype Event = Event(sequence: int, previous: Digest, at: int, payload: Payload)

  /** One line of the journal file: a parsed record, or anything that does not parse as one. */
  datatype Line = Record(event: Event, sha: Digest) | Garbage

  /** The fingerprint of an event. */
  type Stamp = Event -> Digest

  ghost predicate Injective<A(!new), B>(f: A -> B) {
    forall a, b :: f(a) == f(b) ==> a == b
  }

  // ------------------------------------------------------------------ the chain

  function Tip(journal: seq<Line>, n: nat): Digest
    requires n <= |journal|
  {
    if n == 0 || journal[n - 1].Garbage? then GENESIS else journal[n - 1].sha
  }

  /** Line `i` continues the chain. */
  predicate Linked(stamp: Stamp, journal: seq<Line>, i: nat)
    requires i < |journal|
  {
    && journal[i].Record?
    && journal[i].event.sequence == i + 1 && journal[i].event.previous == Tip(journal, i)
    && stamp(journal[i].event) == journal[i].sha
  }

  predicate Chained(stamp: Stamp, journal: seq<Line>) {
    forall i :: 0 <= i < |journal| ==> Linked(stamp, journal, i)
  }

  /** The line `append` adds. */
  function NextLine(stamp: Stamp, journal: seq<Line>, at: int, payload: Payload): (line: Line) {
    var event := Event(|journal| + 1, Tip(journal, |journal|), at, payload);
    Record(event, stamp(event))
  }

  /** A chain grows exactly by lines that `append` could have written. */
  lemma ChainGrows(stamp: Stamp, journal: seq<Line>, line: Line)
    ensures Chained(stamp, journal + [line]) <==>
              && Chained(stamp, journal) && line.Record?
              && line == NextLine(stamp, journal, line.event.at, line.event.payload)
  {
    var longer := journal + [line];
    forall i | 0 <= i < |journal| ensures Linked(stamp, longer, i) == Linked(stamp, journal, i) {
      assert Tip(longer, i) == Tip(journal, i);
    }
    assert Tip(longer, |journal|) == Tip(journal, |journal|);
    assert Chained(stamp, longer) ==> Linked(stamp, longer, |journal|);
  }

  /** Cutting a chain anywhere leaves a chain: losing the newest records goes unnoticed. */
  lemma TruncationUnnoticed(stamp: Stamp, journal: seq<Line>, n: nat)
    requires Chained(stamp, journal) && n <= |journal|
    ensures Chained(stamp, journal[..n])
  {
    forall i | 0 <= i < n ensures Linked(stamp, journal[..n], i) {
      assert Linked(stamp, journal, i);
    }
  }

  /** Two accepted journals that end in the same digest are the same journal. */
  lemma {:induction false} TipDeterminesJournal(stamp: Stamp, a: seq<Line>, b: seq<Line>)
    requires Injective(stamp) && Chained(stamp, a) && Chained(stamp, b)
    requires a != [] && b != [] && Tip(a, |a|) == Tip(b, |b|)
    ensures a == b
    decreases |a|
  {
    var m, n := |a| - 1, |b| - 1;
    assert Linked(stamp, a, m) && Linked(stamp, b, n);
    assert a[m].event == b[n].event;
    if m > 0 {
      TruncationUnnoticed(stamp, a, m);
      TruncationUnnoticed(stamp, b, n);
      assert Linked(stamp, a, m - 1) && Linked(stamp, b, n - 1);
      assert Tip(a[..m], m) == Tip(a, m) && Tip(b[..n], n) == Tip(b, n);
      TipDeterminesJournal(stamp, a[..m], b[..n]);
    }
    assert a == a[..m] + [a[m]] && b == b[..n] + [b[n]];
  }

  /**
   * Rewriting one line of an accepted journal is noticed, unless it is the last line and the
   * replacement is itself a record that `append` could have written there.
   */
  lemma EditNoticed(stamp: Stamp, journal: seq<Line>, i: nat, line: Line)
    requires Injective(stamp) && Chained(stamp, journal) && i < |journal| && line != journal[i]
    ensures Chained(stamp, journal[i := line]) <==>
              && i == |journal| - 1 && line.Record?
              && line == NextLine(stamp, journal[..i], line.event.at, line.event.payload)
  {
    var edited, last := journal[i := line], |journal| - 1;
    TruncationUnnoticed(stamp, journal, i);
    if i == last {
      assert edited == journal[..i] + [line];
      ChainGrows(stamp, journal[..i], line);
    } else if Chained(stamp, edited) {
      assert Linked(stamp, journal, last) && Linked(stamp, edited, last);
      assert edited != journal by {
        assert edited[i] == line;
      }
      TipDeterminesJournal(stamp, journal, edited);
    }
  }

  // ------------------------------------------------------------------ what the records say

  function PayloadOf(line: Line): Payload {
    if line.Record? then line.event.payload else SearchStarted
  }

  /** The payloads in order. */
  function Log(journal: seq<Line>): (log: seq<Payload>)
    ensures |log| == |journal|
  {
    seq(|journal|, i requires 0 <= i < |journal| => PayloadOf(journal[i]))
  }

  lemma LogNext(stamp: Stamp, journal: seq<Line>, at: int, payload: Payload)
    ensures Log(journal + [NextLine(stamp, journal, at, payload)]) == Log(journal) + [payload]
  {
  }

  lemma LogPrefix(a: seq<Line>, b: seq<Line>)
    requires a <= b
    ensures Log(a) <= Log(b)
  {
  }

  function StartCount(log: seq<Payload>): nat {
    if log == [] then 0 else StartCount(log[..|log| - 1]) + (if log[|log| - 1].Started? then 1 else 0)
  }

  function FinishCount(log: seq<Payload>): nat {
    if log == [] then 0 else FinishCount(log[..|log| - 1]) + (if log[|log| - 1].Finished? then 1 else 0)
  }

  function TurnCount(log: seq<Payload>): nat {
    if log == [] then 0 else TurnCount(log[..|log| - 1]) + (if log[|log| - 1].AgentTurn? then 1 else 0)
  }

  lemma CountsNext(log: seq<Payload>, p: Payload)
    ensures StartCount(log + [p]) == StartCount(log) + (if p.Started? then 1 else 0)
    ensures FinishCount(log + [p]) == FinishCount(log) + (if p.Finished? then 1 else 0)
    ensures TurnCount(log + [p]) == TurnCount(log) + (if p.AgentTurn? then 1 else 0)
  {
    assert (log + [p])[..|log|] == log;
  }

  /** The record that experiment number `FinishCount + 1` or `StartCount + 1` comes next, as appropriate. */
  predicate Follows(log: seq<Payload>, p: Payload) {
    match p
    case Started(id, _) => id == StartCount(log) + 1 && FinishCount(log) == StartCount(log)
    case Finished(id, _) => id == FinishCount(log) + 1 && FinishCount(log) < StartCount(log)
    case AgentTurn(artifact, _, _) => artifact == TurnFile(TurnCount(log) + 1)
    case _ => true
  }

  /** Every record follows from the ones before it. */
  predicate WellOrdered(log: seq<Payload>) {
    log == [] || (WellOrdered(log[..|log| - 1]) && Follows(log[..|log| - 1], log[|log| - 1]))
  }

  lemma WellOrderedNext(log: seq<Payload>, p: Payload)
    ensures WellOrdered(log + [p]) <==> WellOrdered(log) && Follows(log, p)
  {
    assert (log + [p])[..|log|] == log;
  }

  lemma {:induction false} AtMostOnePending(log: seq<Payload>)
    requires WellOrdered(log)
    ensures FinishCount(log) <= StartCount(log) <= FinishCount(log) + 1
  {
    if log != [] {
      AtMostOnePending(log[..|log| - 1]);
    }
  }

  /** The ids of the started experiments, in order. */
  function StartedIds(log: seq<Payload>): seq<int> {
    if log == [] then []
    else
      var last := log[|log| - 1];
      StartedIds(log[..|log| - 1]) + (if last.Started? then [last.id] else [])
  }

  function FinishedIds(log: seq<Payload>): seq<int> {
    if log == [] then []
    else
      var last := log[|log| - 1];
      FinishedIds(log[..|log| - 1]) + (if last.Finished? then [last.id] else [])
  }

  function UpTo(n: nat): (s: seq<int>)
    ensures |s| == n && forall i :: 0 <= i < n ==> s[i] == i + 1
  {
    seq(n, i => i + 1)
  }

  /** Experiments are numbered 1, 2, 3, … as they start, finish in that order, and each at most once. */
  lemma {:induction false} IdsAreSequential(log: seq<Payload>)
    requires WellOrdered(log)
    ensures StartedIds(log) == UpTo(StartCount(log)) && FinishedIds(log) == UpTo(FinishCount(log))
  {
    if log != [] {
      IdsAreSequential(log[..|log| - 1]);
    }
  }
}

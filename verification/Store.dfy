/** The experiment store: reading and extending the run directory, one atomic write at a time. */
module Store {
  import opened Common
  import opened Schemas
  import opened Journal
  import opened RunDirectory
  import opened Integrity

  datatype Failure =
    | HistoryCorrupt | InvalidResult | NotStarted | AlreadyFinished | ProposalChanged | ResultExists | ArtifactExists
    | ProposalRejected | CleanupUnverified | BudgetExpired | AgentFailed(message: string) | ClosingFailed(message: string)

  /** How a call ends; `Crashed` is the death of the whole controller, which nothing can catch. */
  datatype Outcome<+T> = Done(value: T) | Raised(error: Failure) | Cancelled | Crashed

  /** The highest id any experiment was started under. */
  function HighestId(log: seq<Payload>): int {
    if log == [] then 0
    else
      var last := log[|log| - 1];
      if last.Started? then Max(HighestId(log[..|log| - 1]), last.id) else HighestId(log[..|log| - 1])
  }

  lemma {:induction false} HighestIsCount(log: seq<Payload>)
    requires WellOrdered(log)
    ensures HighestId(log) == StartCount(log)
  {
    if log != [] {
      HighestIsCount(log[..|log| - 1]);
    }
  }

  /** Why a result is refused, if it is. */
  function Refusal<F(==, !new)>(codec: Codec<F>, d: Disk<F>, result: ExperimentResult): Option<Failure> {
    var log := Log(d.journal);
    if !Chained(codec.stamp, d.journal) then Some(HistoryCorrupt)
    else if |StartsOf(log, result.id)| != 1 then Some(NotStarted)
    else if IsFinished(log, result.id) then Some(AlreadyFinished)
    else if codec.proposal(StartsOf(log, result.id)[0]) != codec.proposal(result.proposal) then Some(ProposalChanged)
    else if !Free(d.results, result.id, codec.encode(result)) then Some(ResultExists)
    else None
  }

  /** Record `k` is the one and only start of experiment `id`. */
  ghost predicate OnlyStart(log: seq<Payload>, id: int, k: nat) {
    && k < |log| && log[k].Started? && log[k].id == id
    && forall j :: 0 <= j < |log| && j != k ==> !(log[j].Started? && log[j].id == id)
  }

  lemma {:induction false} StartsExact(log: seq<Payload>, id: int)
    ensures StartsOf(log, id) == [] <==> forall j :: 0 <= j < |log| ==> !(log[j].Started? && log[j].id == id)
    ensures forall k: nat :: OnlyStart(log, id, k) ==> StartsOf(log, id) == [log[k].proposal]
    ensures |StartsOf(log, id)| == 1 ==> exists k: nat :: OnlyStart(log, id, k)
  {
    if log != [] {
      var n := |log| - 1;
      var earlier, last := log[..n], log[n];
      StartsExact(earlier, id);
      assert log == earlier + [last];
      if last.Started? && last.id == id {
        assert StartsOf(earlier, id) == [] ==> OnlyStart(log, id, n);
      } else {
        forall k: nat ensures OnlyStart(log, id, k) <==> OnlyStart(earlier, id, k) {
          assert forall j :: 0 <= j < n ==> log[j] == earlier[j];
        }
      }
    }
  }

  /**
   * A result is taken exactly when the journal is intact, started that experiment once, with the same
   * proposal, and has not finished it, and no other contents lie in its file.
   */
  lemma RefusalExact<F(!new)>(codec: Codec<F>, d: Disk<F>, result: ExperimentResult)
    ensures Refusal(codec, d, result).None? <==>
              var log := Log(d.journal);
              && Chained(codec.stamp, d.journal)
              && (exists k: nat :: OnlyStart(log, result.id, k) && codec.proposal(log[k].proposal) == codec.proposal(result.proposal))
              && (forall j :: 0 <= j < |log| ==> !(log[j].Finished? && log[j].id == result.id))
              && (result.id in d.results ==> d.results[result.id] == codec.encode(result))
  {
    var log := Log(d.journal);
    StartsExact(log, result.id);
    assert IsFinished(log, result.id) <==> exists j :: 0 <= j < |log| && log[j].Finished? && log[j].id == result.id;
    hide Chained, StartsOf, IsFinished, Log;
  }

  function Written<F(==, !new)>(codec: Codec<F>, d: Disk<F>, result: ExperimentResult): Disk<F> {
    d.(results := d.results[result.id := codec.encode(result)])
  }

  function Finishing<F(==, !new)>(codec: Codec<F>, result: ExperimentResult): Payload {
    Finished(result.id, codec.sha(codec.encode(result)))
  }

  /** Started experiments that never finished, as journal records. */
  function Unfinished(journal: seq<Line>, log: seq<Payload>): seq<Line> {
    if journal == [] then []
    else
      var last := journal[|journal| - 1];
      Unfinished(journal[..|journal| - 1], log)
      + (if PayloadOf(last).Started? && !IsFinished(log, PayloadOf(last).id) then [last] else [])
  }

  lemma {:induction false} UnfinishedFrom(journal: seq<Line>, log: seq<Payload>)
    requires WellOrdered(Log(journal)) && WellOrdered(log) && FinishCount(log) >= StartCount(Log(journal))
    ensures Unfinished(journal, log) == []
  {
    if journal != [] {
      var n := |journal| - 1;
      assert Log(journal)[..n] == Log(journal[..n]);
      UnfinishedFrom(journal[..n], log);
      if PayloadOf(journal[n]).Started? {
        FinishedUpTo(log, PayloadOf(journal[n]).id);
      }
    }
  }

  /** Exactly the last started experiment can be unfinished. */
  lemma {:induction false} PendingIsLast(journal: seq<Line>, log: seq<Payload>)
    requires WellOrdered(Log(journal)) && WellOrdered(log) && Log(journal) <= log
    requires FinishCount(log) + 1 >= StartCount(Log(journal))
    ensures
      var pending := Unfinished(journal, log);
      if FinishCount(log) >= StartCount(Log(journal)) then pending == []
      else
        && |pending| == 1 && PayloadOf(pending[0]).Started? && PayloadOf(pending[0]).id == StartCount(Log(journal))
        && StartsOf(Log(journal), StartCount(Log(journal))) == [PayloadOf(pending[0]).proposal]
  {
    if FinishCount(log) >= StartCount(Log(journal)) {
      UnfinishedFrom(journal, log);
    } else {
      var n := |journal| - 1;
      var all, earlier := Log(journal), Log(journal[..n]);
      assert all[..n] == earlier && all == earlier + [all[n]];
      CountsNext(earlier, all[n]);
      StartsNext(earlier, all[n], StartCount(all));
      if all[n].Started? {
        UnfinishedFrom(journal[..n], log);
        FinishedUpTo(log, all[n].id);
        NotStartedYet(earlier, all[n].id);
      } else {
        PendingIsLast(journal[..n], log);
      }
    }
  }

  /** One atomic write less to live for. */
  function Spend(power: Option<nat>): Option<nat>
    requires power != Some(0)
  {
    if power.Some? then Some(power.value - 1) else None
  }

  class ExperimentStore<F(==, !new)> {
    const codec: Codec<F>
    var disk: Disk<F>
    /** Atomic writes left before the controller dies; `None` if it lives. */
    var power: Option<nat>

    constructor (codec: Codec<F>, disk: Disk<F>, power: Option<nat>)
      ensures this.codec == codec && this.disk == disk && this.power == power
    {
      this.codec, this.disk, this.power := codec, disk, power;
    }

    /** Read and validate the whole journal. */
    method Events() returns (r: Result<seq<Line>, Failure>)
      ensures r == if Chained(codec.stamp, disk.journal) then Ok(disk.journal) else Err(HistoryCorrupt)
    {
      var previous, journal := GENESIS, disk.journal;
      for i := 0 to |journal|
        invariant forall k :: 0 <= k < i ==> Linked(codec.stamp, journal, k)
        invariant previous == Tip(journal, i)
      {
        var line := journal[i];
        if line.Garbage? || line.event.sequence != i + 1 || line.event.previous != previous
           || codec.stamp(line.event) != line.sha
        {
          assert !Linked(codec.stamp, journal, i);
          return Err(HistoryCorrupt);
        }
        previous := line.sha;
      }
      return Ok(journal);
    }

    method Append(at: int, payload: Payload) returns (o: Outcome<()>)
      modifies this
      ensures o ==
        if !Chained(codec.stamp, old(disk).journal) then Raised(HistoryCorrupt)
        else if old(power) == Some(0) then Crashed else Done(())
      ensures disk == if o.Done? then Appended(codec, old(disk), at, payload) else old(disk)
      ensures power == if o.Done? then Spend(old(power)) else old(power)
    {
      var events := Events();
      if events.Err? {
        return Raised(events.error);
      }
      if power == Some(0) {
        return Crashed;
      }
      power := Spend(power);
      disk := disk.(journal := events.value + [NextLine(codec.stamp, events.value, at, payload)]);
      return Done(());
    }

    /** Start a new experiment under the next free id. */
    method Begin(at: int, proposal: Proposal) returns (o: Outcome<int>)
      modifies this
      ensures o ==
        if !Chained(codec.stamp, old(disk).journal) then Raised(HistoryCorrupt)
        else if old(power) == Some(0) then Crashed else Done(HighestId(Log(old(disk).journal)) + 1)
      ensures disk ==
        if o.Done? then Appended(codec, old(disk), at, Started(o.value, proposal)) else old(disk)
      ensures power == if o.Done? then Spend(old(power)) else old(power)
    {
      var events := Events();
      if events.Err? {
        return Raised(events.error);
      }
      var log, highest := Log(events.value), 0;
      for i := 0 to |log|
        invariant highest == HighestId(log[..i])
      {
        assert log[..i + 1][..i] == log[..i];
        if log[i].Started? {
          highest := Max(highest, log[i].id);
        }
      }
      assert log[..|log|] == log;
      var appended := Append(at, Started(highest + 1, proposal));
      match appended {
        case Done(_) => return Done(highest + 1);
        case Crashed => return Crashed;
      }
    }

    /** The two-step commit: the result file first, then its journal record. */
    method Finish(at: int, result: ExperimentResult) returns (o: Outcome<()>)
      modifies this
      ensures
        var before := old(disk);
        var refusal := Refusal(codec, before, result);
        if refusal.Some? then o == Raised(refusal.value) && disk == before && power == old(power)
        else if old(power) == Some(0) then o == Crashed && disk == before && power == Some(0)
        else if old(power) == Some(1) then o == Crashed && disk == Written(codec, before, result) && power == Some(0)
        else
          && o == Done(()) && power == Spend(Spend(old(power)))
          && disk == Appended(codec, Written(codec, before, result), at, Finishing(codec, result))
    {
      var events := Events();
      if events.Err? {
        return Raised(events.error);
      }
      var log := Log(events.value);
      var starts := StartsOf(log, result.id);
      if |starts| != 1 {
        return Raised(NotStarted);
      }
      if IsFinished(log, result.id) {
        return Raised(AlreadyFinished);
      }
      if codec.proposal(starts[0]) != codec.proposal(result.proposal) {
        return Raised(ProposalChanged);
      }
      var data := codec.encode(result);
      if result.id in disk.results && disk.results[result.id] != data {
        return Raised(ResultExists);
      }
      if power == Some(0) {
        return Crashed;
      }
      power := Spend(power);
      disk := disk.(results := disk.results[result.id := data]);
      o := Append(at, Finished(result.id, codec.sha(data)));
    }

    /** Every recorded result, or the refusal to trust an altered one. */
    method Results() returns (r: Result<seq<ExperimentResult>, Failure>)
      ensures
        var recorded := Recorded(codec, Log(disk.journal), disk.results);
        r == if !Chained(codec.stamp, disk.journal) then Err(HistoryCorrupt)
             else if recorded.None? then Err(InvalidResult) else Ok(recorded.value)
      ensures r.Ok? ==> AllVouched(codec, Log(disk.journal), disk.results, r.value)
      ensures r == Err(InvalidResult) ==> forall rs :: !AllVouched(codec, Log(disk.journal), disk.results, rs)
    {
      var events := Events();
      if events.Err? {
        return Err(events.error);
      }
      var log, results := Log(events.value), [];
      ReadExactly(codec, log, disk.results);
      assert Recorded(codec, log[..0], disk.results) == Some(results);
      hide Recorded, ReadResult, Log, Chained, AllVouched;
      for i := 0 to |log|
        invariant Recorded(codec, log[..i], disk.results) == Some(results)
      {
        assert log[..i + 1] == log[..i] + [log[i]];
        RecordedNext(codec, log[..i], log[i], disk.results);
        if log[i].Finished? {
          var result := ReadResult(codec, disk.results, log[i].id, log[i].sha);
          if result.None? {
            if Recorded(codec, log, disk.results).Some? {
              RecordedPrefix(codec, log, disk.results, i + 1);
            }
            return Err(InvalidResult);
          }
          results := results + [result.value];
        }
      }
      assert log[..|log|] == log;
      return Ok(results);
    }

    /** Start records of experiments that have no finish record. */
    method Pending() returns (r: Result<seq<Line>, Failure>)
      ensures r ==
        if Chained(codec.stamp, disk.journal) then Ok(Unfinished(disk.journal, Log(disk.journal)))
        else Err(HistoryCorrupt)
    {
      var events := Events();
      if events.Err? {
        return Err(events.error);
      }
      var journal, log, pending := events.value, Log(events.value), [];
      for i := 0 to |journal|
        invariant pending == Unfinished(journal[..i], log)
      {
        assert journal[..i + 1][..i] == journal[..i];
        if PayloadOf(journal[i]).Started? && !IsFinished(log, PayloadOf(journal[i]).id) {
          pending := pending + [journal[i]];
        }
      }
      assert journal[..|journal|] == journal;
      return Ok(pending);
    }

    /** Save a file that no later call may alter. */
    method Artifact(key: ArtifactKey, text: F) returns (o: Outcome<Digest>)
      modifies this
      ensures o ==
        if !Free(old(disk).artifacts, key, text) then Raised(ArtifactExists)
        else if old(power) == Some(0) then Crashed else Done(codec.sha(text))
      ensures disk == if o.Done? then Saved(old(disk), key, text) else old(disk)
      ensures power == if o.Done? then Spend(old(power)) else old(power)
    {
      if key in disk.artifacts && disk.artifacts[key] != text {
        return Raised(ArtifactExists);
      }
      if power == Some(0) {
        return Crashed;
      }
      power := Spend(power);
      disk := Saved(disk, key, text);
      return Done(codec.sha(text));
    }
  }
}

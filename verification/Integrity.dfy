/** What reading the recorded results guarantees about the files they come from. */
module Integrity {
  import opened Common
  import opened Schemas
  import opened Journal
  import opened RunDirectory

  /** The finish records, in journal order. */
  function Finishes(log: seq<Payload>): seq<Payload> {
    if log == [] then []
    else
      var last := log[|log| - 1];
      Finishes(log[..|log| - 1]) + (if last.Finished? then [last] else [])
  }

  lemma {:induction false} FinishesExact(log: seq<Payload>, p: Payload)
    ensures p in Finishes(log) <==> p in log && p.Finished?
  {
    if log != [] {
      FinishesExact(log[..|log| - 1], p);
      assert log == log[..|log| - 1] + [log[|log| - 1]];
    }
  }

  /** The file of the finished experiment has the recorded digest and holds this result, of this experiment. */
  predicate Vouched<F(==, !new)>(codec: Codec<F>, results: map<int, F>, p: Payload, r: ExperimentResult)
    requires p.Finished?
  {
    && p.id >= 1 && p.id in results && codec.sha(results[p.id]) == p.sha
    && codec.decode(results[p.id]) == Some(r) && r.id == p.id
  }

  /** One result for each finish record, in order, and the journal vouches for every one of them. */
  ghost predicate AllVouched<F(!new)>(codec: Codec<F>, log: seq<Payload>, results: map<int, F>, rs: seq<ExperimentResult>) {
    && |rs| == |Finishes(log)|
    && forall k :: 0 <= k < |rs| ==> Finishes(log)[k].Finished? && Vouched(codec, results, Finishes(log)[k], rs[k])
  }

  lemma AllVouchedNext<F(!new)>(codec: Codec<F>, log: seq<Payload>, results: map<int, F>, rs: seq<ExperimentResult>)
    requires log != []
    ensures
      var n := |log| - 1;
      AllVouched(codec, log, results, rs) <==>
        if !log[n].Finished? then AllVouched(codec, log[..n], results, rs)
        else
          && rs != [] && AllVouched(codec, log[..n], results, rs[..|rs| - 1])
          && Vouched(codec, results, log[n], rs[|rs| - 1])
  {
    var n := |log| - 1;
    var earlier := Finishes(log[..n]);
    assert Finishes(log) == if log[n].Finished? then earlier + [log[n]] else earlier;
    hide Vouched, Finishes;
    if log[n].Finished? && rs != [] {
      var m := |rs| - 1;
      if AllVouched(codec, log, results, rs) {
        assert Vouched(codec, results, Finishes(log)[m], rs[m]);
        forall k | 0 <= k < m ensures earlier[k].Finished? && Vouched(codec, results, earlier[k], rs[..m][k]) {
          assert Finishes(log)[k] == earlier[k];
        }
      } else if AllVouched(codec, log[..n], results, rs[..m]) && Vouched(codec, results, log[n], rs[m]) {
        forall k | 0 <= k < |rs| ensures Finishes(log)[k].Finished? && Vouched(codec, results, Finishes(log)[k], rs[k]) {
          if k < m {
            assert rs[..m][k] == rs[k] && Finishes(log)[k] == earlier[k];
          }
        }
      }
    }
  }

  /**
   * Reading the records succeeds with exactly the results the journal vouches for: for every finish
   * record in turn, a file with the recorded digest that decodes to a result of that experiment.
   */
  lemma {:induction false} RecordedExact<F(!new)>(codec: Codec<F>, log: seq<Payload>, results: map<int, F>, rs: seq<ExperimentResult>)
    ensures Recorded(codec, log, results) == Some(rs) <==> AllVouched(codec, log, results, rs)
  {
    if log != [] {
      var n := |log| - 1;
      AllVouchedNext(codec, log, results, rs);
      if log[n].Finished? {
        if rs != [] {
          RecordedExact(codec, log[..n], results, rs[..|rs| - 1]);
          assert rs == rs[..|rs| - 1] + [rs[|rs| - 1]];
        }
      } else {
        RecordedExact(codec, log[..n], results, rs);
      }
      hide AllVouched;
    }
  }

  lemma ReadExactly<F(!new)>(codec: Codec<F>, log: seq<Payload>, results: map<int, F>)
    ensures Recorded(codec, log, results).Some? ==> AllVouched(codec, log, results, Recorded(codec, log, results).value)
    ensures Recorded(codec, log, results).None? ==> forall rs :: !AllVouched(codec, log, results, rs)
  {
    hide Recorded, AllVouched;
    if Recorded(codec, log, results).Some? {
      RecordedExact(codec, log, results, Recorded(codec, log, results).value);
    } else {
      forall rs ensures !AllVouched(codec, log, results, rs) {
        RecordedExact(codec, log, results, rs);
      }
    }
  }

  /** The files of all finished experiments are the same. */
  ghost predicate SameRecorded<F(!new)>(log: seq<Payload>, results: map<int, F>, others: map<int, F>) {
    forall p :: p in log && p.Finished? ==> p.id in results && p.id in others && others[p.id] == results[p.id]
  }

  /**
   * Whatever is done to the result files behind the journal's back: if the file of any recorded
   * experiment is altered or gone, reading is refused, and otherwise it reads the same.
   */
  lemma TamperingNoticed<F(!new)>(codec: Codec<F>, log: seq<Payload>, results: map<int, F>, others: map<int, F>)
    requires Injective(codec.sha) && Recorded(codec, log, results).Some?
    ensures SameRecorded(log, results, others) ==> Recorded(codec, log, others) == Recorded(codec, log, results)
    ensures !SameRecorded(log, results, others) ==> Recorded(codec, log, others).None?
  {
    var rs := Recorded(codec, log, results).value;
    RecordedExact(codec, log, results, rs);
    if SameRecorded(log, results, others) {
      forall k | 0 <= k < |rs| ensures Vouched(codec, others, Finishes(log)[k], rs[k]) {
        FinishesExact(log, Finishes(log)[k]);
      }
      RecordedExact(codec, log, others, rs);
    } else if Recorded(codec, log, others).Some? {
      var read := Recorded(codec, log, others).value;
      RecordedExact(codec, log, others, read);
      forall p | p in log && p.Finished? ensures p.id in results && p.id in others && others[p.id] == results[p.id] {
        FinishesExact(log, p);
        var k :| 0 <= k < |rs| && Finishes(log)[k] == p;
        assert Vouched(codec, results, p, rs[k]) && Vouched(codec, others, p, read[k]);
        assert codec.sha(others[p.id]) == codec.sha(results[p.id]);
      }
    }
  }

  /** One file at a time: another file, or none, in place of a recorded result; and any change elsewhere. */
  lemma FileEditNoticed<F(!new)>(codec: Codec<F>, log: seq<Payload>, results: map<int, F>, id: int, data: F)
    requires Injective(codec.sha) && Recorded(codec, log, results).Some?
    ensures IsFinished(log, id) ==> id in results
    ensures IsFinished(log, id) && data != results[id] ==> Recorded(codec, log, results[id := data]).None?
    ensures IsFinished(log, id) ==> Recorded(codec, log, results - {id}).None?
    ensures !IsFinished(log, id) ==>
              && Recorded(codec, log, results[id := data]) == Recorded(codec, log, results)
              && Recorded(codec, log, results - {id}) == Recorded(codec, log, results)
  {
    TamperingNoticed(codec, log, results, results);
    assert SameRecorded(log, results, results);
    TamperingNoticed(codec, log, results, results[id := data]);
    TamperingNoticed(codec, log, results, results - {id});
    if IsFinished(log, id) {
      var p :| p in log && p.Finished? && p.id == id;
      assert p.id in results;
    }
    hide Recorded, Injective;
  }
}

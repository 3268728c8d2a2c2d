/** When a proxied request is leased, retried, queued or given up: the exact conditions, and what runs make of them. */
module Retrying {
  import opened Common
  import opened Semaphore
  import opened Routing
  import opened Proxy
  import opened Serving

  /** Some routable replica is healthy and not among the ids tried. */
  ghost predicate Offers(t: Table, tried: set<string>)
    requires WellFormed(t)
  {
    exists k :: 0 <= k < |t.entries| && t.cells[t.entries[k]].status.Healthy? && t.cells[t.entries[k]].id !in tried
  }

  lemma OffersChoice(t: Table, tried: set<string>)
    requires WellFormed(t)
    ensures Select(t, tried).Some? <==> Offers(t, tried)
  {
    SelectExact(t, tried);
    hide Select;
  }

  /** The send failed in transport, or a 5xx response was discarded cleanly. */
  predicate AttemptFails(s: Step, i: nat) {
    s == Step.Reply(i, TransportError) || s == Discarded(i, true)
  }

  function FailureText(s: Step): string {
    if s.Discarded? then "HTTP 5xx" else "transport error"
  }

  /**
   * After an attempt has failed before any response, the request goes on to a second attempt, the
   * first one charged, if and only if it was the first and some other replica can take it; otherwise
   * it is over, with that error. Either way the error is noted against the replica that failed.
   */
  lemma RetriedExactly(w: World, s: Step, i: nat)
    requires Sane(w) && Enabled(w, s) && AttemptFails(s, i)
    ensures
      var q, after := w.requests[i], Next(w, s).requests[i];
      if |q.attempts| == 1 && Offers(w.table, {q.attempts[0].id}) then
        && after.phase.Sending? && |after.attempts| == 2 && after.error.None?
        && after.attempts[0].id == q.attempts[0].id && after.attempts[0].charges == 1
        && after.attempts[1].id != q.attempts[0].id && after.attempts[1].verdict.Pending?
      else
        after.phase.Finished? && |after.attempts| == |q.attempts| && after.error == Some(FailureText(s))
    ensures
      var from := Last(w.requests[i]).cell;
      && from < |w.table.cells| && |Next(w, s).table.cells| == |w.table.cells|
      && Next(w, s).table.cells[from].lastError == Some(FailureText(s))
  {
    var q := w.requests[i];
    assert Live(q);
    hide Add, Remove, SetStatus, Select, Routing.Release, Finish, Journey;
    assert |q.attempts| == 1 ==> Ids(q.attempts) == {q.attempts[0].id};
    var verdict := if s.Discarded? then ServerError else HttpError;
    RetryOutcome(w, i, verdict, FailureText(s));
    RetryNotes(w, i, verdict, FailureText(s));
    hide Sane, Retry;
  }

  lemma RetryOutcome(w: World, i: nat, verdict: Verdict, error: string)
    requires Sane(w) && i < |w.requests| && w.requests[i].attempts != [] && Last(w.requests[i]).cell < |w.table.cells|
    ensures
      var q, after := w.requests[i], Retry(w, i, verdict, error).requests[i];
      if |q.attempts| == 1 && Offers(w.table, q.excluded) then
        && after.phase.Sending? && |after.attempts| == 2 && after.error == q.error
        && after.attempts[0] == q.attempts[0].(verdict := verdict, charges := q.attempts[0].charges + 1)
        && after.attempts[1].id !in q.excluded && after.attempts[1].verdict.Pending?
      else
        after.phase.Finished? && |after.attempts| == |q.attempts| && after.error == Some(error)
  {
    OffersChoice(w.table, w.requests[i].excluded);
    SelectExact(w.table, w.requests[i].excluded);
    hide Select, Sane, Offers;
  }

  lemma RetryNotes(w: World, i: nat, verdict: Verdict, error: string)
    requires Sane(w) && i < |w.requests| && w.requests[i].attempts != [] && Last(w.requests[i]).cell < |w.table.cells|
    ensures
      var from, t := Last(w.requests[i]).cell, Retry(w, i, verdict, error).table;
      |t.cells| == |w.table.cells| && t.cells[from].lastError == Some(error)
  {
    SelectExact(w.table, w.requests[i].excluded);
    hide Select, Sane;
  }

  /** An attempt ending in any other way is never followed by another. */
  lemma OtherwiseNotRetried(w: World, s: Step, i: nat)
    requires Sane(w) && Enabled(w, s) && i < |w.requests| && w.requests[i].attempts != [] && !AttemptFails(s, i)
    ensures |Next(w, s).requests[i].attempts| == |w.requests[i].attempts|
  {
    if i == RequestOf(s) {
      hide Add, Remove, SetStatus, Select, Routing.Release;
    } else {
      OnlyOwnRequest(w, s, i);
    }
  }

  // ------------------------------------------------------------------ the first lease

  /**
   * An arriving request, when a permit is free or none is needed, is leased if and only if some
   * routable replica is healthy, and refused otherwise; when no permit is free it waits if the queue
   * has room, and is rejected if not.
   */
  lemma ArrivalExactly(w: World, i: nat)
    requires Sane(w) && Enabled(w, Arrive(i))
    ensures
      var after := Next(w, Arrive(i));
      var q := after.requests[i];
      if w.permits.Some? && w.permits.value.Locked() then
        && q.attempts == [] && after.table == w.table
        && (q.phase.Waiting? <==> w.waiting < w.depth) && (q.phase.Finished? <==> w.waiting >= w.depth)
        && after.rejected == w.rejected + (if w.waiting >= w.depth then 1 else 0)
        && after.waiting == w.waiting + (if w.waiting >= w.depth then 0 else 1)
      else
        && after.rejected == w.rejected && after.waiting == w.waiting
        && (if Offers(w.table, {}) then q.phase.Sending? && |q.attempts| == 1 else q.phase.Finished? && q.attempts == [])
  {
    if w.permits.None? {
      EnterOutcome(w, i);
    } else if !w.permits.value.Locked() {
      EnterOutcome(w.(permits := Some(TakeFree(w.permits.value))), i);
    }
    hide Enter;
  }

  /** A waiter that has been handed a permit is leased if and only if some routable replica is healthy. */
  lemma GrantExactly(w: World, i: nat)
    requires Sane(w) && Enabled(w, Granting(i))
    ensures
      var after := Next(w, Granting(i));
      var q := after.requests[i];
      && after.waiting == w.waiting - 1
      && if Offers(w.table, {}) then q.phase.Sending? && |q.attempts| == 1 else q.phase.Finished? && q.attempts == []
  {
    EnterOutcome(w.(permits := Some(Semaphore.Resume(w.permits.value, i)), waiting := w.waiting - 1), i);
    hide Enter;
  }

  lemma EnterOutcome(w: World, i: nat)
    requires Sane(w) && i < |w.requests| && w.requests[i].attempts == []
    ensures
      var after := Enter(w, i);
      var q := after.requests[i];
      && after.waiting == w.waiting && after.rejected == w.rejected
      && if Offers(w.table, {}) then q.phase.Sending? && |q.attempts| == 1 else q.phase.Finished? && q.attempts == []
  {
    OffersChoice(w.table, {});
    SelectExact(w.table, {});
    hide Select, Sane;
  }

  // ------------------------------------------------------------------ over runs

  /** At some point of the run the attempt of request `i` failed and no other replica could take it. */
  ghost predicate FoundNoOther(w: World, steps: seq<Step>, i: nat)
    requires Sane(w) && Possible(w, steps) && i < |w.requests|
    decreases |steps|
  {
    && steps != []
    && (|| (AttemptFails(steps[0], i) && |w.requests[i].attempts| == 1 && !Offers(w.table, {w.requests[i].attempts[0].id}))
        || (StepKeeps(w, steps[0]); FoundNoOther(Next(w, steps[0]), steps[1..], i)))
  }

  /** What a request that is over has done is not changed any more. */
  lemma OverStays(w: World, s: Step, i: nat)
    requires Sane(w) && Enabled(w, s) && i < |w.requests| && w.requests[i].phase.Finished?
    ensures Next(w, s).requests[i] == w.requests[i]
  {
    assert i != RequestOf(s);
    OnlyOwnRequest(w, s, i);
  }

  lemma {:induction false} OverForever(w: World, steps: seq<Step>, i: nat)
    requires Sane(w) && Possible(w, steps) && i < |w.requests| && w.requests[i].phase.Finished?
    ensures i < |Outcome(w, steps).requests| && Outcome(w, steps).requests[i] == w.requests[i]
    decreases |steps|
  {
    if steps != [] {
      StepKeeps(w, steps[0]);
      OverStays(w, steps[0], i);
      hide Sane, Next, Enabled;
      OverForever(Next(w, steps[0]), steps[1..], i);
    }
  }

  /** A request ends with a failed last attempt only by that attempt's failure, with nowhere else to go. */
  lemma EndsByFailure(w: World, s: Step, i: nat)
    requires Sane(w) && Enabled(w, s) && i < |w.requests| && !w.requests[i].phase.Finished?
    requires
      var after := Next(w, s).requests[i];
      after.phase.Finished? && |after.attempts| == 1 && FailedBeforeResponse(after.attempts[0].verdict)
    ensures AttemptFails(s, i) && |w.requests[i].attempts| == 1 && !Offers(w.table, {w.requests[i].attempts[0].id})
  {
    if i != RequestOf(s) {
      OnlyOwnRequest(w, s, i);
    }
    if s.Arrive? {
      ArrivalExactly(w, i);
    } else if s.Granting? {
      GrantExactly(w, i);
    } else if AttemptFails(s, i) {
      RetriedExactly(w, s, i);
    } else {
      EndsOtherwise(w, s, i);
    }
    hide Next, Sane, Enabled;
  }

  lemma EndsOtherwise(w: World, s: Step, i: nat)
    requires Sane(w) && Enabled(w, s) && i == RequestOf(s) && i < |w.requests|
    requires !s.Arrive? && !s.Granting? && !AttemptFails(s, i)
    ensures
      var after := Next(w, s).requests[i];
      after.phase.Finished? && after.attempts != [] ==> !FailedBeforeResponse(Last(after).verdict)
  {
    hide Add, Remove, SetStatus, Select, Routing.Release, Admit, Retry, Enter;
  }

  /**
   * A request that ended after a single attempt that failed before any response found no other
   * healthy routable replica at the moment the attempt failed.
   */
  lemma {:induction false} SingleFailureHadNoOther(w: World, steps: seq<Step>, i: nat)
    requires Sane(w) && Possible(w, steps) && i < |w.requests| && !w.requests[i].phase.Finished?
    requires i < |Outcome(w, steps).requests|
    requires
      var q := Outcome(w, steps).requests[i];
      q.phase.Finished? && |q.attempts| == 1 && FailedBeforeResponse(q.attempts[0].verdict)
    ensures FoundNoOther(w, steps, i)
    decreases |steps|
  {
    var u := Next(w, steps[0]);
    StepKeeps(w, steps[0]);
    if u.requests[i].phase.Finished? {
      OverForever(u, steps[1..], i);
      EndsByFailure(w, steps[0], i);
    } else {
      hide Sane, Next, Enabled;
      SingleFailureHadNoOther(u, steps[1..], i);
    }
  }

  // ------------------------------------------------------------------ answers

  /**
   * The client is given a response exactly when the replica answers below 500 and one can be built
   * from that; anything else keeps the response from it, and no step takes it back.
   */
  lemma AnsweredExactly(w: World, s: Step, i: nat)
    requires Sane(w) && Enabled(w, s) && i < |w.requests|
    ensures Next(w, s).requests[i].handedOff <==> w.requests[i].handedOff || s == Step.Reply(i, Success)
  {
    if i == RequestOf(s) {
      hide Add, Remove, SetStatus, Select, Routing.Release, Admit;
    } else {
      OnlyOwnRequest(w, s, i);
    }
  }

  /** What a response's stream ends in, and what the replica is charged for it: a drop by the replica, once. */
  function StreamVerdict(reply: Reply): Verdict {
    match reply
    case Success => Delivered
    case TransportError => Dropped
    case _ => ClientGone
  }

  /**
   * From the answer to the end: the request is over with its last attempt judged by how the stream
   * ended, the replica released once and charged exactly if it dropped the stream, and the permit given back.
   */
  lemma ServedToTheEnd(w: World, i: nat, reply: Reply)
    requires Sane(w) && Enabled(w, Step.Reply(i, Success)) && !reply.Status5xx? && !reply.Unusable?
    ensures
      var steps := [Step.Reply(i, Success), StreamEnd(i, reply), ConnectionClosed(i)];
      && Possible(w, steps)
      && var after := Outcome(w, steps);
         && i < |after.requests| && |after.table.cells| == |w.table.cells|
         && var q, c := after.requests[i], Last(w.requests[i]).cell;
            && q.phase.Finished? && |q.attempts| == |w.requests[i].attempts| && q.attempts != [] && c < |w.table.cells|
            && Last(q).verdict == StreamVerdict(reply) && Last(q).charges == (if reply.TransportError? then 1 else 0)
            && after.table.cells[c].inflight == Floor0(w.table.cells[c].inflight - 1)
            && after.table.cells[c].failures == w.table.cells[c].failures + (if reply.TransportError? then 1 else 0)
            && after.table.cells[c].lastError ==
                 (if reply.TransportError? then Some("dropped mid-stream") else w.table.cells[c].lastError)
            && after.permits == ReleaseAny(w.permits)
  {
    var a, b, c := Step.Reply(i, Success), StreamEnd(i, reply), ConnectionClosed(i);
    AnswerStep(w, i);
    StepKeeps(w, a);
    var w1 := Next(w, a);
    StreamStep(w1, i, reply);
    StepKeeps(w1, b);
    var w2 := Next(w1, b);
    CloseStep(w2, i);
    hide Sane, Next;
    ThreeSteps(w, a, b, c);
    hide Possible, Outcome;
  }

  lemma ThreeSteps(w: World, a: Step, b: Step, c: Step)
    requires Sane(w) && Enabled(w, a) && Sane(Next(w, a)) && Enabled(Next(w, a), b)
    requires Sane(Next(Next(w, a), b)) && Enabled(Next(Next(w, a), b), c)
    ensures Possible(w, [a, b, c]) && Outcome(w, [a, b, c]) == Next(Next(Next(w, a), b), c)
  {
    var w1 := Next(w, a);
    var w2 := Next(w1, b);
    OneStep(w2, c);
    hide Sane, Next, Enabled;
    assert [a, b, c][1..] == [b, c] && [b, c][1..] == [c];
    assert Possible(w1, [b, c]) && Outcome(w1, [b, c]) == Next(w2, c);
  }

  lemma OneStep(w: World, s: Step)
    requires Sane(w) && Enabled(w, s)
    ensures Possible(w, [s]) && Outcome(w, [s]) == Next(w, s)
  {
    StepKeeps(w, s);
    hide Sane, Next, Enabled;
    assert [s][1..] == [];
    assert Possible(Next(w, s), []) && Outcome(Next(w, s), []) == Next(w, s);
  }

  lemma AnswerStep(w: World, i: nat)
    requires Sane(w) && Enabled(w, Step.Reply(i, Success))
    ensures
      var u := Next(w, Step.Reply(i, Success));
      && u.table == w.table && u.permits == w.permits && u.requests[i].phase.Streaming?
      && |u.requests[i].attempts| == |w.requests[i].attempts| && u.requests[i].attempts != [] && w.requests[i].attempts != []
      && Last(u.requests[i]).cell == Last(w.requests[i]).cell
  {
  }

  lemma StreamStep(w: World, i: nat, reply: Reply)
    requires Sane(w) && Enabled(w, StreamEnd(i, reply))
    ensures
      var u := Next(w, StreamEnd(i, reply));
      && u.table == w.table && u.permits == w.permits && u.requests[i].phase.Closing?
      && |u.requests[i].attempts| == |w.requests[i].attempts| && u.requests[i].attempts != [] && w.requests[i].attempts != []
      && Last(u.requests[i]).cell == Last(w.requests[i]).cell && Last(u.requests[i]).verdict == StreamVerdict(reply)
      && Last(u.requests[i]).charges == 0
      && u.requests[i].error == (if reply.TransportError? then Some("dropped mid-stream") else None)
  {
  }

  lemma CloseStep(w: World, i: nat)
    requires Sane(w) && Enabled(w, ConnectionClosed(i))
    ensures
      var u := Next(w, ConnectionClosed(i));
      && w.requests[i].attempts != [] && Last(w.requests[i]).cell < |w.table.cells| && |u.table.cells| == |w.table.cells|
      && var q, c, charge := w.requests[i], Last(w.requests[i]).cell, if w.requests[i].error.Some? then 1 else 0;
         && u.requests[i].phase.Finished? && |u.requests[i].attempts| == |q.attempts|
         && Last(u.requests[i]).verdict == Last(q).verdict && Last(u.requests[i]).charges == Last(q).charges + charge
         && u.table.cells[c].inflight == Floor0(w.table.cells[c].inflight - 1)
         && u.table.cells[c].failures == w.table.cells[c].failures + charge
         && u.table.cells[c].lastError == (if q.error.Some? then q.error else w.table.cells[c].lastError)
         && u.permits == ReleaseAny(w.permits)
  {
    assert Placed(w.requests[i], w.table.cells);
  }
}

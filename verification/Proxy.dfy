/**
 * Proxied requests as an interleaved protocol: each request advances from one await to the next,
 * in any order, while replicas come and go.
 */
module Proxy {
  import opened Common
  import opened Semaphore
  import opened Routing

  /** What became of one attempt. Only an accepted attempt's response reaches the client. */
  datatype Verdict =
    | Pending | HttpError | ServerError | Undiscarded | Abandoned
    | Accepted | Dropped | Delivered | ClientGone

  /** `charges` counts the failures charged to the replica on behalf of this attempt. */
  datatype Attempt = Attempt(cell: nat, id: string, verdict: Verdict, charges: nat)

  datatype Phase = Arriving | Waiting | Sending | Discarding | Streaming | Closing | Finished

  /** The two places that run a request's cleanup: the end of its handler and the end of its response. */
  datatype Site = HandlerExit | ResponseEnd

  /**
   * `excluded` is the lease's set of ids already tried; `releases` counts releases of the lease;
   * `handedOff` says that the response owns the cleanup, and `cleanups` who began one.
   */
  datatype Request = Request(
    phase: Phase, attempts: seq<Attempt>, excluded: set<string>, error: Option<string>, releases: nat,
    handedOff: bool, cleanups: seq<Site>)

  const ARRIVING := Request(Arriving, [], {}, None, 0, false, [])

  datatype World = World(
    table: Table, permits: Option<Permits>, waiting: int, depth: nat, rejected: int, requests: seq<Request>)

  /**
   * How a send or a stream ends. After `Unusable` the replica has answered but no response to the
   * client can be built from that.
   */
  datatype Reply = Success | Unusable | Status5xx | TransportError | OtherError

  datatype Step =
    | Arrive(i: nat) | Granting(i: nat) | CancelWait(i: nat)
    | Reply(i: nat, reply: Reply) | Discarded(i: nat, clean: bool) | StreamEnd(i: nat, reply: Reply) | ConnectionClosed(i: nat)
    | AddReplica(id: string) | RemoveReplica(id: string) | ChangeStatus(id: string, status: Health, error: Option<string>)

  // ------------------------------------------------------------------ one request

  predicate Live(q: Request) {
    q.attempts != [] && (q.phase.Sending? || q.phase.Discarding? || q.phase.Streaming? || q.phase.Closing?)
  }

  function Last(q: Request): Attempt
    requires q.attempts != []
  {
    q.attempts[|q.attempts| - 1]
  }

  function Ids(attempts: seq<Attempt>): set<string> {
    set a | a in attempts :: a.id
  }

  function Judge(q: Request, verdict: Verdict, charge: nat): Request
    requires q.attempts != []
  {
    var a := Last(q);
    q.(attempts := q.attempts[|q.attempts| - 1 := a.(verdict := verdict, charges := a.charges + charge)])
  }

  function Leased(q: Request, c: nat, id: string): Request {
    q.(phase := Sending, attempts := q.attempts + [Attempt(c, id, Pending, 0)], excluded := q.excluded + {id})
  }

  /** The end of the handler, however it is left: it cleans up unless a response has taken that over. */
  function Leaving(q: Request): Request {
    if q.handedOff then q else q.(cleanups := q.cleanups + [HandlerExit])
  }

  /** The end of the response: it always cleans up. */
  function ResponseOver(q: Request): Request {
    q.(cleanups := q.cleanups + [ResponseEnd])
  }

  /** A handler left without a lease. */
  function Left(q: Request): Request {
    Leaving(q).(phase := Finished)
  }

  /** An answer below 500: the response is handed to the client, and the handler ends. */
  function HandedOver(q: Request): Request
    requires q.attempts != []
  {
    Leaving(Judge(q, Accepted, 0).(phase := Streaming, handedOff := true))
  }

  // ------------------------------------------------------------------ the steps

  function Put(w: World, i: nat, q: Request): World
    requires i < |w.requests|
  {
    w.(requests := w.requests[i := q])
  }

  /** The second half of `acquire`: a permit is held, if there are permits; pick a replica or give it back. */
  function Enter(w: World, i: nat): World
    requires WellFormed(w.table) && i < |w.requests|
  {
    var choice := Select(w.table, {});
    if choice.None? then Put(w.(permits := ReleaseAny(w.permits)), i, Left(w.requests[i]))
    else
      SelectExact(w.table, {});
      var c := choice.value.cell;
      Put(w.(table := Admit(w.table, choice.value)), i, Leased(w.requests[i], c, w.table.cells[c].id))
  }

  /** `release` of the lease of request `q`, with its last attempt judged; `error` decides who is charged. */
  function Finish(w: World, i: nat, error: Option<string>, verdict: Verdict): World
    requires i < |w.requests| && w.requests[i].attempts != [] && Last(w.requests[i]).cell < |w.table.cells|
  {
    var q := w.requests[i];
    var t := Routing.Release(w.table, Last(q).cell, error.Some?, error);
    Put(w.(table := t, permits := ReleaseAny(w.permits)), i, Ended(q, error, verdict))
  }

  /** The cleanup begun at the latest with the end of the handler comes to its end. */
  function Ended(q: Request, error: Option<string>, verdict: Verdict): Request
    requires q.attempts != []
  {
    Judge(q, verdict, if error.Some? then 1 else 0).(
      phase := Finished, error := error, releases := q.releases + 1,
      cleanups := if q.phase.Closing? then q.cleanups else Leaving(q).cleanups)
  }

  /** An attempt failed before any response was accepted: move the lease once, or give up. */
  function Retry(w: World, i: nat, verdict: Verdict, error: string): World
    requires WellFormed(w.table) && i < |w.requests| && w.requests[i].attempts != []
    requires Last(w.requests[i]).cell < |w.table.cells|
  {
    var q := w.requests[i];
    var choice := if |q.attempts| >= 2 then None else Select(w.table, q.excluded);
    if choice.None? then Finish(w, i, Some(error), verdict)
    else
      SelectExact(w.table, q.excluded);
      var c := choice.value.cell;
      Put(w.(table := Move(w.table, Last(q).cell, choice.value, Some(error))),
          i, Leased(Judge(q, verdict, 1), c, w.table.cells[c].id))
  }

  predicate Enabled(w: World, s: Step) {
    match s
    case Arrive(i) => i < |w.requests| && w.requests[i].phase.Arriving?
    case Granting(i) =>
      && i < |w.requests| && w.requests[i].phase.Waiting?
      && w.permits.Some? && Granted(w.permits.value.queue, i)
    case CancelWait(i) => i < |w.requests| && w.requests[i].phase.Waiting? && w.permits.Some?
    case Reply(i, _) => i < |w.requests| && w.requests[i].phase.Sending?
    case Discarded(i, _) => i < |w.requests| && w.requests[i].phase.Discarding?
    case StreamEnd(i, reply) => i < |w.requests| && w.requests[i].phase.Streaming? && !reply.Status5xx? && !reply.Unusable?
    case ConnectionClosed(i) => i < |w.requests| && w.requests[i].phase.Closing?
    case _ => true
  }

  function Arrived(w: World, i: nat): World
    requires WellFormed(w.table) && i < |w.requests|
  {
    var q := w.requests[i];
    if w.permits.None? then Enter(w, i)
    else
      var p := w.permits.value;
      if p.Locked() && w.waiting >= w.depth then Put(w.(rejected := w.rejected + 1), i, Left(q))
      else if p.Locked() then Put(w.(permits := Some(Join(p, i)), waiting := w.waiting + 1), i, q.(phase := Waiting))
      else Enter(w.(permits := Some(TakeFree(p))), i)
  }

  function Next(w: World, s: Step): (u: World)
    requires Enabled(w, s) && WellFormed(w.table) && Sane(w)
    ensures |u.requests| == |w.requests|
  {
    match s
    case Arrive(i) => Arrived(w, i)
    case Granting(i) => Enter(w.(permits := Some(Semaphore.Resume(w.permits.value, i)), waiting := w.waiting - 1), i)
    case CancelWait(i) =>
      Put(w.(permits := Some(Leave(w.permits.value, i)), waiting := w.waiting - 1), i, Left(w.requests[i]))
    case Reply(i, reply) =>
      var q := w.requests[i];
      (match reply
       case Success => Put(w, i, HandedOver(q))
       case Unusable => Put(w, i, Leaving(Judge(q, Abandoned, 0)).(phase := Closing))
       case Status5xx => Put(w, i, Judge(q, ServerError, 0).(phase := Discarding))
       case TransportError => Retry(w, i, HttpError, "transport error")
       case OtherError => Finish(w, i, None, Abandoned))
    case Discarded(i, clean) =>
      if clean then Retry(w, i, ServerError, "HTTP 5xx") else Finish(w, i, None, Undiscarded)
    case StreamEnd(i, reply) =>
      var q := w.requests[i];
      (match reply
       case Success => Put(w, i, ResponseOver(Judge(q, Delivered, 0)).(phase := Closing))
       case TransportError =>
         Put(w, i, ResponseOver(Judge(q, Dropped, 0)).(phase := Closing, error := Some("dropped mid-stream")))
       case _ => Put(w, i, ResponseOver(Judge(q, ClientGone, 0)).(phase := Closing)))
    case ConnectionClosed(i) => Finish(w, i, w.requests[i].error, Last(w.requests[i]).verdict)
    case AddReplica(id) => w.(table := Add(w.table, id))
    case RemoveReplica(id) => w.(table := Remove(w.table, id))
    case ChangeStatus(id, status, error) => w.(table := SetStatus(w.table, id, status, error))
  }

  // ------------------------------------------------------------------ the life of a request

  predicate FailedBeforeResponse(v: Verdict) {
    v.HttpError? || v.ServerError?
  }

  /** Attempts refer to existing cells, under the id each cell has. */
  predicate Placed(q: Request, cells: seq<Cell>) {
    forall k :: 0 <= k < |q.attempts| ==> q.attempts[k].cell < |cells| && cells[q.attempts[k].cell].id == q.attempts[k].id
  }

  /**
   * At most two attempts, on different ids; the first of two failed before a response and was
   * charged once; the lease is released exactly once, at the end; the last attempt is charged once
   * if it failed, and not at all otherwise; and exactly one of the two sites cleans up.
   */
  predicate Journey(q: Request) {
    && |q.attempts| <= 2
    && (q.attempts == [] <==> q.phase.Arriving? || q.phase.Waiting? || (q.phase.Finished? && q.releases == 0))
    && q.excluded == Ids(q.attempts)
    && (|q.attempts| == 2 ==>
          && q.attempts[0].id != q.attempts[1].id
          && FailedBeforeResponse(q.attempts[0].verdict) && q.attempts[0].charges == 1)
    && q.releases == (if q.phase.Finished? && q.attempts != [] then 1 else 0)
    && (q.attempts != [] ==> LastAttempt(q.phase, Last(q), q.error))
    && (q.attempts == [] ==> q.error.None?)
    && CleansOnce(q)
  }

  /** No cleanup before the end, then one: by the response if it was handed over, by the handler if not. */
  predicate CleansOnce(q: Request) {
    && q.cleanups == (if !q.phase.Closing? && !q.phase.Finished? then [] else if q.handedOff then [ResponseEnd] else [HandlerExit])
    && (q.handedOff ==> q.phase.Streaming? || q.phase.Closing? || q.phase.Finished?) && (q.phase.Streaming? ==> q.handedOff)
    && (q.handedOff && !q.phase.Streaming? ==> q.attempts != [] && Reached(Last(q).verdict))
    && (!q.handedOff && q.attempts != [] ==> !Reached(Last(q).verdict))
  }

  /** The client was given a response. */
  predicate Reached(v: Verdict) {
    v.Delivered? || v.Dropped? || v.ClientGone?
  }

  predicate LastAttempt(phase: Phase, a: Attempt, error: Option<string>) {
    match phase
    case Sending => a.verdict.Pending? && a.charges == 0 && error.None?
    case Discarding => a.verdict.ServerError? && a.charges == 0 && error.None?
    case Streaming => a.verdict.Accepted? && a.charges == 0 && error.None?
    case Closing =>
      && (Reached(a.verdict) || a.verdict.Abandoned?)
      && a.charges == 0 && (error.Some? <==> a.verdict.Dropped?)
    case Finished =>
      && !a.verdict.Pending? && !a.verdict.Accepted?
      && a.charges == (if error.Some? then 1 else 0)
      && (error.Some? <==> a.verdict.HttpError? || a.verdict.ServerError? || a.verdict.Dropped?)
    case _ => false
  }

  /** Every request is on a proper journey over existing cells. */
  ghost predicate Sane(w: World) {
    && WellFormed(w.table)
    && forall i :: 0 <= i < |w.requests| ==> Journey(w.requests[i]) && Placed(w.requests[i], w.table.cells)
  }

  // ------------------------------------------------------------------ every step keeps every journey proper

  lemma IdsOf(attempts: seq<Attempt>, a: Attempt)
    ensures Ids(attempts + [a]) == Ids(attempts) + {a.id}
  {
  }

  lemma JudgeKeepsIds(q: Request, verdict: Verdict, charge: nat)
    requires q.attempts != []
    ensures Ids(Judge(q, verdict, charge).attempts) == Ids(q.attempts)
    ensures forall cells :: Placed(q, cells) ==> Placed(Judge(q, verdict, charge), cells)
  {
    var p, n := Judge(q, verdict, charge), |q.attempts| - 1;
    assert forall k :: 0 <= k <= n ==> p.attempts[k].id == q.attempts[k].id && p.attempts[k].cell == q.attempts[k].cell;
    forall id | id in Ids(q.attempts) ensures id in Ids(p.attempts) {
      var k :| 0 <= k <= n && q.attempts[k].id == id;
      assert p.attempts[k] in p.attempts;
    }
    forall id | id in Ids(p.attempts) ensures id in Ids(q.attempts) {
      var k :| 0 <= k <= n && p.attempts[k].id == id;
      assert q.attempts[k] in q.attempts;
    }
  }

  /** A first lease. */
  lemma FirstLease(q: Request, c: nat, id: string)
    requires Journey(q) && (q.phase.Arriving? || q.phase.Waiting?)
    ensures Journey(Leased(q, c, id))
  {
    IdsOf(q.attempts, Attempt(c, id, Pending, 0));
  }

  /** The one retry, on an id not tried before. */
  lemma SecondLease(q: Request, verdict: Verdict, c: nat, id: string)
    requires Journey(q) && Live(q) && |q.attempts| == 1 && !q.phase.Streaming? && !q.phase.Closing?
    requires FailedBeforeResponse(verdict) && id !in q.excluded
    ensures Journey(Leased(Judge(q, verdict, 1), c, id))
  {
    var p := Judge(q, verdict, 1);
    JudgeKeepsIds(q, verdict, 1);
    IdsOf(p.attempts, Attempt(c, id, Pending, 0));
    assert q.attempts[0] in q.attempts;
    assert p.attempts[0].id in q.excluded;
  }

  /** Moving on with the last attempt judged, without a new lease. */
  lemma JudgedJourney(q: Request, verdict: Verdict, charge: nat, p: Request)
    requires Journey(q) && Live(q)
    requires p.attempts == Judge(q, verdict, charge).attempts && p.excluded == q.excluded
    requires !p.phase.Arriving? && !p.phase.Waiting?
    requires p.releases == (if p.phase.Finished? then 1 else 0)
    requires LastAttempt(p.phase, Last(q).(verdict := verdict, charges := Last(q).charges + charge), p.error)
    requires CleansOnce(p)
    ensures Journey(p) && forall cells :: Placed(q, cells) ==> Placed(p, cells)
  {
    JudgeKeepsIds(q, verdict, charge);
  }

  lemma TableKeepsPlaces(w: World, t: Table)
    requires Sane(w) && WellFormed(t) && |w.table.cells| <= |t.cells|
    requires forall c: nat :: c < |w.table.cells| ==> t.cells[c].id == w.table.cells[c].id
    ensures Sane(w.(table := t))
  {
    hide Journey, WellFormed;
    forall i | 0 <= i < |w.requests| ensures Journey(w.requests[i]) && Placed(w.requests[i], t.cells) {
      assert Placed(w.requests[i], w.table.cells);
    }
  }

  lemma PutKeeps(w: World, i: nat, q: Request)
    requires Sane(w) && i < |w.requests| && Journey(q) && Placed(q, w.table.cells)
    ensures Sane(Put(w, i, q))
  {
    hide Journey, WellFormed, Placed;
  }

  lemma EnterKeeps(w: World, i: nat)
    requires Sane(w) && i < |w.requests| && (w.requests[i].phase.Arriving? || w.requests[i].phase.Waiting?)
    ensures Sane(Enter(w, i))
  {
    var q, choice := w.requests[i], Select(w.table, {});
    SelectExact(w.table, {});
    if choice.None? {
      PutKeeps(w.(permits := ReleaseAny(w.permits)), i, Left(q));
    } else {
      var c := choice.value.cell;
      FirstLease(q, c, w.table.cells[c].id);
      TableKeepsPlaces(w, Admit(w.table, choice.value));
      PutKeeps(w.(table := Admit(w.table, choice.value)), i, Leased(q, c, w.table.cells[c].id));
    }
  }

  lemma FinishKeeps(w: World, i: nat, error: Option<string>, verdict: Verdict)
    requires Sane(w) && i < |w.requests| && Live(w.requests[i])
    requires
      var a := Last(w.requests[i]);
      LastAttempt(Finished, a.(verdict := verdict, charges := a.charges + (if error.Some? then 1 else 0)), error)
    requires !w.requests[i].phase.Streaming? && (Reached(verdict) <==> w.requests[i].handedOff)
    ensures Sane(Finish(w, i, error, verdict))
  {
    var q := w.requests[i];
    JudgedJourney(q, verdict, if error.Some? then 1 else 0, Ended(q, error, verdict));
    var t := Routing.Release(w.table, Last(q).cell, error.Some?, error);
    TableKeepsPlaces(w, t);
    assert Placed(Ended(q, error, verdict), t.cells);
    PutKeeps(w.(table := t, permits := ReleaseAny(w.permits)), i, Ended(q, error, verdict));
  }

  lemma MoveKeeps(w: World, i: nat, verdict: Verdict, error: string, choice: Choice)
    requires Sane(w) && i < |w.requests| && Live(w.requests[i]) && FailedBeforeResponse(verdict)
    requires w.requests[i].phase.Sending? || w.requests[i].phase.Discarding?
    requires |w.requests[i].attempts| == 1 && Select(w.table, w.requests[i].excluded) == Some(choice)
    ensures choice.cell < |w.table.cells| && choice.cell != Last(w.requests[i]).cell
    ensures
      var q := w.requests[i];
      Sane(Put(w.(table := Move(w.table, Last(q).cell, choice, Some(error))), i,
        Leased(Judge(q, verdict, 1), choice.cell, w.table.cells[choice.cell].id)))
  {
    var q, c := w.requests[i], choice.cell;
    SelectExact(w.table, q.excluded);
    assert q.attempts[0] in q.attempts;
    JudgeKeepsIds(q, verdict, 1);
    SecondLease(q, verdict, c, w.table.cells[c].id);
    var t := Move(w.table, Last(q).cell, choice, Some(error));
    TableKeepsPlaces(w, t);
    assert Placed(Leased(Judge(q, verdict, 1), c, w.table.cells[c].id), t.cells);
    PutKeeps(w.(table := t), i, Leased(Judge(q, verdict, 1), c, w.table.cells[c].id));
  }

  lemma RetryKeeps(w: World, i: nat, verdict: Verdict, error: string)
    requires Sane(w) && i < |w.requests| && Live(w.requests[i]) && FailedBeforeResponse(verdict)
    requires w.requests[i].phase.Sending? || w.requests[i].phase.Discarding?
    ensures Sane(Retry(w, i, verdict, error))
  {
    var q := w.requests[i];
    var choice := if |q.attempts| >= 2 then None else Select(w.table, q.excluded);
    if choice.None? {
      FinishKeeps(w, i, Some(error), verdict);
    } else {
      MoveKeeps(w, i, verdict, error, choice.value);
    }
    hide Sane, Journey, Placed, Finish, Select, Move, Leased, Judge;
  }

  /** Whatever happens next, every request stays on a proper journey. */
  lemma StepKeeps(w: World, s: Step)
    requires Sane(w) && Enabled(w, s)
    ensures Sane(Next(w, s))
  {
    match s
    case Arrive(i) => ArriveKeeps(w, i);
    case Granting(i) =>
      var u := w.(permits := Some(Semaphore.Resume(w.permits.value, i)), waiting := w.waiting - 1);
      assert Sane(u);
      EnterKeeps(u, i);
    case CancelWait(i) =>
      var u := w.(permits := Some(Leave(w.permits.value, i)), waiting := w.waiting - 1);
      PutKeeps(u, i, Left(w.requests[i]));
    case Reply(i, reply) => ReplyKeeps(w, i, reply);
    case Discarded(i, clean) =>
      if clean {
        RetryKeeps(w, i, ServerError, "HTTP 5xx");
      } else {
        FinishKeeps(w, i, None, Undiscarded);
      }
    case StreamEnd(i, reply) => StreamKeeps(w, i, reply);
    case ConnectionClosed(i) => FinishKeeps(w, i, w.requests[i].error, Last(w.requests[i]).verdict);
    case AddReplica(id) => TableKeepsPlaces(w, Add(w.table, id));
    case RemoveReplica(id) => TableKeepsPlaces(w, Remove(w.table, id));
    case ChangeStatus(id, status, error) => TableKeepsPlaces(w, SetStatus(w.table, id, status, error));
  }

  lemma ArriveKeeps(w: World, i: nat)
    requires Sane(w) && Enabled(w, Arrive(i))
    ensures Sane(Arrived(w, i))
  {
    var q := w.requests[i];
    if w.permits.None? {
      EnterKeeps(w, i);
    } else if !w.permits.value.Locked() {
      EnterKeeps(w.(permits := Some(TakeFree(w.permits.value))), i);
    } else if w.waiting >= w.depth {
      PutKeeps(w.(rejected := w.rejected + 1), i, Left(q));
    } else {
      PutKeeps(w.(permits := Some(Join(w.permits.value, i)), waiting := w.waiting + 1), i, q.(phase := Waiting));
    }
  }

  lemma ReplyKeeps(w: World, i: nat, reply: Reply)
    requires Sane(w) && Enabled(w, Step.Reply(i, reply))
    ensures Sane(Next(w, Step.Reply(i, reply)))
  {
    var q := w.requests[i];
    match reply
    case Success =>
      JudgedJourney(q, Accepted, 0, HandedOver(q));
      PutKeeps(w, i, HandedOver(q));
    case Unusable =>
      var p := Leaving(Judge(q, Abandoned, 0)).(phase := Closing);
      JudgedJourney(q, Abandoned, 0, p);
      PutKeeps(w, i, p);
    case Status5xx =>
      var p := Judge(q, ServerError, 0).(phase := Discarding);
      JudgedJourney(q, ServerError, 0, p);
      PutKeeps(w, i, p);
    case TransportError => RetryKeeps(w, i, HttpError, "transport error");
    case OtherError => FinishKeeps(w, i, None, Abandoned);
  }

  lemma StreamKeeps(w: World, i: nat, reply: Reply)
    requires Sane(w) && Enabled(w, StreamEnd(i, reply))
    ensures Sane(Next(w, StreamEnd(i, reply)))
  {
    var q := w.requests[i];
    var verdict := match reply case Success => Delivered case TransportError => Dropped case _ => ClientGone;
    var error := if reply.TransportError? then Some("dropped mid-stream") else None;
    var p := ResponseOver(Judge(q, verdict, 0)).(phase := Closing, error := error);
    JudgedJourney(q, verdict, 0, p);
    PutKeeps(w, i, p);
  }
}

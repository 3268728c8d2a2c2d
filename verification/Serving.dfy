/** Whole runs of the router and its proxied requests, in any interleaving. */
module Serving {
  import opened Common
  import opened Semaphore
  import opened Routing
  import opened Proxy
  import opened Ledger

  // ------------------------------------------------------------------ the books, step by step

  lemma LedgerEnter(w: World, i: nat)
    requires Sane(w) && Balanced(w.table, w.requests)
    requires i < |w.requests| && (w.requests[i].phase.Arriving? || w.requests[i].phase.Waiting?)
    ensures Balanced(Enter(w, i).table, Enter(w, i).requests)
  {
    SelectExact(w.table, {});
    var q, choice := w.requests[i], Select(w.table, {});
    if choice.None? {
      IdleAmounts(q, Left(q));
      SameAmounts(w.table, w.requests, i, Left(q));
    } else {
      AdmitBooks(w.table, w.requests, i, choice.value, w.table.cells[choice.value.cell].id);
    }
  }

  /** A request that never got a lease counts for nothing. */
  lemma IdleAmounts(q: Request, p: Request)
    requires q.attempts == [] && p.attempts == []
    ensures forall m :: Amount(p, m) == Amount(q, m)
  {
  }

  lemma LedgerRetry(w: World, i: nat, verdict: Verdict, error: string)
    requires Sane(w) && Balanced(w.table, w.requests) && i < |w.requests| && Live(w.requests[i])
    requires FailedBeforeResponse(verdict) && (w.requests[i].phase.Sending? || w.requests[i].phase.Discarding?)
    ensures Balanced(Retry(w, i, verdict, error).table, Retry(w, i, verdict, error).requests)
  {
    var q := w.requests[i];
    var choice := if |q.attempts| >= 2 then None else Select(w.table, q.excluded);
    if choice.None? {
      FinishBooks(w.table, w.requests, i, Some(error), verdict);
    } else {
      MoveKeeps(w, i, verdict, error, choice.value);
      MoveBooks(w.table, w.requests, i, choice.value, w.table.cells[choice.value.cell].id, verdict, Some(error));
    }
    hide Balanced, Sane, Select, Judge, Leased, Move, Ended, Routing.Release;
  }

  lemma LedgerPhase(w: World, i: nat, p: Request, verdict: Verdict)
    requires Balanced(w.table, w.requests) && i < |w.requests| && Live(w.requests[i]) && Live(p)
    requires p.attempts == Judge(w.requests[i], verdict, 0).attempts
    ensures Balanced(w.table, w.requests[i := p])
  {
    forall m ensures Amount(p, m) == Amount(w.requests[i], m) {
      PhaseAmounts(w.requests[i], p, verdict, m);
    }
    hide Amount, Balanced, Judge, Live;
    SameAmounts(w.table, w.requests, i, p);
  }

  lemma LedgerFinish(w: World, i: nat, error: Option<string>, verdict: Verdict)
    requires Sane(w) && Balanced(w.table, w.requests) && i < |w.requests| && Live(w.requests[i])
    ensures Balanced(Finish(w, i, error, verdict).table, Finish(w, i, error, verdict).requests)
  {
    assert Placed(w.requests[i], w.table.cells);
    FinishBooks(w.table, w.requests, i, error, verdict);
    hide Balanced;
  }

  /** Every step keeps the books balanced. */
  lemma LedgerStep(w: World, s: Step)
    requires Sane(w) && Enabled(w, s) && Balanced(w.table, w.requests)
    ensures Balanced(Next(w, s).table, Next(w, s).requests)
  {
    if s.AddReplica? || s.RemoveReplica? || s.ChangeStatus? {
      LedgerManage(w, s);
    } else if s.Arrive? || s.Granting? || s.CancelWait? {
      LedgerAdmission(w, s);
    } else {
      LedgerProgress(w, s);
    }
  }

  lemma LedgerManage(w: World, s: Step)
    requires Sane(w) && Enabled(w, s) && Balanced(w.table, w.requests)
    requires s.AddReplica? || s.RemoveReplica? || s.ChangeStatus?
    ensures Balanced(Next(w, s).table, Next(w, s).requests)
  {
    match s
    case AddReplica(id) => AddBooks(w.table, w.requests, id);
    case RemoveReplica(id) =>
    case ChangeStatus(id, status, error) => StatusBooks(w.table, w.requests, id, status, error);
  }

  lemma LedgerAdmission(w: World, s: Step)
    requires Sane(w) && Enabled(w, s) && Balanced(w.table, w.requests)
    requires s.Arrive? || s.Granting? || s.CancelWait?
    ensures Balanced(Next(w, s).table, Next(w, s).requests)
  {
    var q := w.requests[s.i];
    IdleAmounts(q, Left(q));
    IdleAmounts(q, q.(phase := Waiting));
    SameAmounts(w.table, w.requests, s.i, Left(q));
    SameAmounts(w.table, w.requests, s.i, q.(phase := Waiting));
    hide Balanced, Amount;
    match s
    case Arrive(i) =>
      if w.permits.None? {
        LedgerEnter(w, i);
      } else if !w.permits.value.Locked() {
        LedgerEnter(w.(permits := Some(TakeFree(w.permits.value))), i);
      }
    case Granting(i) =>
      LedgerEnter(w.(permits := Some(Semaphore.Resume(w.permits.value, i)), waiting := w.waiting - 1), i);
    case CancelWait(i) =>
  }

  lemma LedgerProgress(w: World, s: Step)
    requires Sane(w) && Enabled(w, s) && Balanced(w.table, w.requests)
    requires s.Reply? || s.Discarded? || s.StreamEnd? || s.ConnectionClosed?
    ensures Balanced(Next(w, s).table, Next(w, s).requests)
  {
    assert Live(w.requests[s.i]);
    hide Balanced, Amount;
    match s
    case Reply(i, reply) =>
      match reply {
        case Success => LedgerPhase(w, i, HandedOver(w.requests[i]), Accepted);
        case Unusable => LedgerPhase(w, i, Leaving(Judge(w.requests[i], Abandoned, 0)).(phase := Closing), Abandoned);
        case Status5xx => LedgerPhase(w, i, Judge(w.requests[i], ServerError, 0).(phase := Discarding), ServerError);
        case TransportError => LedgerRetry(w, i, HttpError, "transport error");
        case OtherError => LedgerFinish(w, i, None, Abandoned);
      }
    case Discarded(i, clean) =>
      if clean {
        LedgerRetry(w, i, ServerError, "HTTP 5xx");
      } else {
        LedgerFinish(w, i, None, Undiscarded);
      }
    case StreamEnd(i, reply) =>
      var verdict := match reply case Success => Delivered case TransportError => Dropped case _ => ClientGone;
      LedgerPhase(w, i, Next(w, s).requests[i], verdict);
    case ConnectionClosed(i) => LedgerFinish(w, i, w.requests[i].error, Last(w.requests[i]).verdict);
  }

  // ------------------------------------------------------------------ the permits, step by step

  /** The queue holds exactly the waiting requests, `skip` aside. */
  ghost predicate Line(queue: seq<Waiter>, qs: seq<Request>, skip: int) {
    InLine(queue) && forall t: nat :: Queued(queue, t) <==> t < |qs| && qs[t].phase.Waiting? && t != skip
  }

  /** All of the limit is accounted for; `held` permits are in the hands of request `skip`, between two awaits. */
  ghost predicate PermitsKept(w: World, limit: nat, skip: int, held: nat) {
    && w.permits.Some?
    && Fair(w.permits.value)
    && Units(w.permits.value) + Total(w.requests, Leases) + held == limit
    && w.waiting == |w.permits.value.queue| && w.waiting <= w.depth
    && Line(w.permits.value.queue, w.requests, skip)
  }

  /** Free permits, permits handed out and live leases make up the limit; the queue is bounded and exact. */
  ghost predicate Conserved(w: World, limit: Option<nat>) {
    match limit
    case Some(n) => PermitsKept(w, n, -1, 0)
    case None => w.permits.None? && w.waiting == 0 && forall i :: 0 <= i < |w.requests| ==> !w.requests[i].phase.Waiting?
  }

  lemma LineAfter(queue: seq<Waiter>, qs: seq<Request>, skip: int, i: nat, q: Request)
    requires Line(queue, qs, skip) && i < |qs| && !q.phase.Waiting?
    requires skip == i || (skip == -1 && !qs[i].phase.Waiting?)
    ensures Line(queue, qs[i := q], -1)
  {
  }

  lemma ReleaseLine(p: Permits, qs: seq<Request>, skip: int)
    requires Line(p.queue, qs, skip)
    ensures Line(Semaphore.Release(p).queue, qs, skip)
  {
    forall t: nat ensures Queued(Semaphore.Release(p).queue, t) == Queued(p.queue, t) && InLine(Semaphore.Release(p).queue) {
      OperationsKeepLine(p, t, t);
    }
    OperationsKeepLine(p, 0, 0);
    hide Semaphore.Release;
  }

  /** Giving one permit back while request `i` stops waiting or stops holding a lease. */
  lemma GiveBack(w: World, limit: nat, skip: int, held: nat, i: nat, q: Request)
    requires PermitsKept(w, limit, skip, held) && i < |w.requests| && !q.phase.Waiting?
    requires skip == i || (skip == -1 && !w.requests[i].phase.Waiting?)
    requires Amount(w.requests[i], Leases) + held == Amount(q, Leases) + 1
    ensures PermitsKept(Put(w.(permits := ReleaseAny(w.permits)), i, q), limit, -1, 0)
  {
    var p := w.permits.value;
    OperationsConserve(p, 0);
    ReleaseLine(p, w.requests, skip);
    LineAfter(Semaphore.Release(p).queue, w.requests, skip, i, q);
    TotalUpdate(w.requests, i, q, Leases);
    hide Amount, Total, Line, Fair, Units, Semaphore.Release;
  }

  /** Request `i` changes without touching the semaphore, turning a held permit into a lease if it held one. */
  lemma KeepPermits(w: World, limit: nat, skip: int, held: nat, i: nat, q: Request)
    requires PermitsKept(w, limit, skip, held) && i < |w.requests| && !q.phase.Waiting?
    requires skip == i || (skip == -1 && !w.requests[i].phase.Waiting?)
    requires Amount(w.requests[i], Leases) + held == Amount(q, Leases)
    ensures PermitsKept(Put(w, i, q), limit, -1, 0)
  {
    LineAfter(w.permits.value.queue, w.requests, skip, i, q);
    TotalUpdate(w.requests, i, q, Leases);
    hide Amount, Total, Line, Fair, Units;
  }

  lemma EnterPermits(w: World, limit: nat, i: nat)
    requires Sane(w) && i < |w.requests| && (w.requests[i].phase.Arriving? || w.requests[i].phase.Waiting?)
    requires PermitsKept(w, limit, i, 1)
    ensures PermitsKept(Enter(w, i), limit, -1, 0)
  {
    var q, choice := w.requests[i], Select(w.table, {});
    if choice.None? {
      GiveBack(w, limit, i, 1, i, Left(q));
    } else {
      SelectExact(w.table, {});
      var c := choice.value.cell;
      KeepPermits(w.(table := Admit(w.table, choice.value)), limit, i, 1, i, Leased(q, c, w.table.cells[c].id));
    }
  }

  lemma FinishPermits(w: World, limit: nat, i: nat, error: Option<string>, verdict: Verdict)
    requires Sane(w) && i < |w.requests| && Live(w.requests[i]) && PermitsKept(w, limit, -1, 0)
    ensures PermitsKept(Finish(w, i, error, verdict), limit, -1, 0)
  {
    var q := w.requests[i];
    assert Placed(q, w.table.cells);
    var t := Routing.Release(w.table, Last(q).cell, error.Some?, error);
    GiveBack(w.(table := t), limit, -1, 0, i, Ended(q, error, verdict));
  }

  lemma RetryPermits(w: World, limit: nat, i: nat, verdict: Verdict, error: string)
    requires Sane(w) && i < |w.requests| && Live(w.requests[i]) && PermitsKept(w, limit, -1, 0)
    requires FailedBeforeResponse(verdict) && (w.requests[i].phase.Sending? || w.requests[i].phase.Discarding?)
    ensures PermitsKept(Retry(w, i, verdict, error), limit, -1, 0)
  {
    var q := w.requests[i];
    var choice := if |q.attempts| >= 2 then None else Select(w.table, q.excluded);
    if choice.None? {
      FinishPermits(w, limit, i, Some(error), verdict);
    } else {
      MoveKeeps(w, i, verdict, error, choice.value);
      var c := choice.value.cell;
      var u := w.(table := Move(w.table, Last(q).cell, choice.value, Some(error)));
      KeepPermits(u, limit, -1, 0, i, Leased(Judge(q, verdict, 1), c, w.table.cells[c].id));
    }
    hide PermitsKept, Sane, Select, Judge, Leased, Move, Finish;
  }

  lemma AdmissionPermits(w: World, limit: nat, s: Step)
    requires Sane(w) && Enabled(w, s) && PermitsKept(w, limit, -1, 0)
    requires s.Arrive? || s.Granting? || s.CancelWait?
    ensures PermitsKept(Next(w, s), limit, -1, 0)
  {
    var p, qs, i := w.permits.value, w.requests, s.i;
    OperationsConserve(p, i);
    hide Fair, Units, Granted, TakeFree, Join, Semaphore.Resume, Leave;
    match s
    case Arrive(i) => ArrivePermits(w, limit, i);
    case Granting(i) =>
      assert Queued(p.queue, i);
      ResumeLine(p, qs, i);
      EnterPermits(w.(permits := Some(Semaphore.Resume(p, i)), waiting := w.waiting - 1), limit, i);
    case CancelWait(i) =>
      assert Queued(p.queue, i);
      ResumeLine(p, qs, i);
      KeepPermits(w.(permits := Some(Leave(p, i)), waiting := w.waiting - 1), limit, i, 0, i, Left(qs[i]));
  }

  lemma ResumeLine(p: Permits, qs: seq<Request>, i: nat)
    requires Line(p.queue, qs, -1) && i < |qs|
    ensures Line(Semaphore.Resume(p, i).queue, qs, i) && Line(Leave(p, i).queue, qs, i)
  {
    OperationsKeepLine(p, i, 0);
    forall t: nat
      ensures Queued(Semaphore.Resume(p, i).queue, t) <==> Queued(p.queue, t) && t != i
      ensures Queued(Leave(p, i).queue, t) <==> Queued(p.queue, t) && t != i
    {
      OperationsKeepLine(p, i, t);
    }
    hide Semaphore.Resume, Leave;
  }

  lemma ArrivePermits(w: World, limit: nat, i: nat)
    requires Sane(w) && Enabled(w, Arrive(i)) && PermitsKept(w, limit, -1, 0)
    ensures PermitsKept(Arrived(w, i), limit, -1, 0)
  {
    var p, q := w.permits.value, w.requests[i];
    OperationsConserve(p, i);
    if !p.Locked() {
      EnterPermits(w.(permits := Some(TakeFree(p))), limit, i);
    } else if w.waiting >= w.depth {
      KeepPermits(w.(rejected := w.rejected + 1), limit, -1, 0, i, Left(q));
    } else {
      JoinsLine(p, w.requests, i);
      TotalUpdate(w.requests, i, q.(phase := Waiting), Leases);
    }
    hide Fair, Units, Join, TakeFree, Line, Total;
  }

  lemma JoinsLine(p: Permits, qs: seq<Request>, i: nat)
    requires Line(p.queue, qs, -1) && i < |qs| && !qs[i].phase.Waiting?
    ensures Line(Join(p, i).queue, qs[i := qs[i].(phase := Waiting)], -1)
  {
    OperationsKeepLine(p, i, 0);
    forall t: nat ensures Queued(Join(p, i).queue, t) <==> Queued(p.queue, t) || t == i {
      OperationsKeepLine(p, i, t);
    }
    hide Join;
  }

  /** Judging a live request, without a charge, leaves the permits alone. */
  lemma PhasePermits(w: World, limit: nat, i: nat, q: Request, verdict: Verdict)
    requires PermitsKept(w, limit, -1, 0) && i < |w.requests| && Live(w.requests[i]) && Live(q)
    requires q.attempts == Judge(w.requests[i], verdict, 0).attempts
    ensures PermitsKept(Put(w, i, q), limit, -1, 0)
  {
    hide PermitsKept, Judge;
    KeepPermits(w, limit, -1, 0, i, q);
  }

  lemma ProgressPermits(w: World, limit: nat, s: Step)
    requires Sane(w) && Enabled(w, s) && PermitsKept(w, limit, -1, 0)
    requires s.Reply? || s.Discarded? || s.StreamEnd? || s.ConnectionClosed?
    ensures PermitsKept(Next(w, s), limit, -1, 0)
  {
    assert Live(w.requests[s.i]);
    var q := w.requests[s.i];
    hide PermitsKept, Journey, Placed, WellFormed;
    match s
    case Reply(i, reply) =>
      match reply {
        case Success => PhasePermits(w, limit, i, HandedOver(q), Accepted);
        case Unusable => PhasePermits(w, limit, i, Leaving(Judge(q, Abandoned, 0)).(phase := Closing), Abandoned);
        case Status5xx => PhasePermits(w, limit, i, Judge(q, ServerError, 0).(phase := Discarding), ServerError);
        case TransportError => RetryPermits(w, limit, i, HttpError, "transport error");
        case OtherError => FinishPermits(w, limit, i, None, Abandoned);
      }
    case Discarded(i, clean) =>
      if clean {
        RetryPermits(w, limit, i, ServerError, "HTTP 5xx");
      } else {
        FinishPermits(w, limit, i, None, Undiscarded);
      }
    case StreamEnd(i, reply) =>
      var verdict := match reply case Success => Delivered case TransportError => Dropped case _ => ClientGone;
      PhasePermits(w, limit, i, Next(w, s).requests[i], verdict);
    case ConnectionClosed(i) => FinishPermits(w, limit, i, q.error, Last(q).verdict);
  }

  lemma PermitsStep(w: World, s: Step, limit: Option<nat>)
    requires Sane(w) && Enabled(w, s) && Conserved(w, limit)
    ensures Conserved(Next(w, s), limit)
  {
    if limit.None? {
      UnlimitedStep(w, s);
    } else if s.AddReplica? || s.RemoveReplica? || s.ChangeStatus? {
    } else if s.Arrive? || s.Granting? || s.CancelWait? {
      AdmissionPermits(w, limit.value, s);
    } else {
      ProgressPermits(w, limit.value, s);
    }
  }

  lemma UnlimitedStep(w: World, s: Step)
    requires Sane(w) && Enabled(w, s) && Conserved(w, None)
    ensures Conserved(Next(w, s), None)
  {
    hide Add, Remove, SetStatus, Admit, Move, Routing.Release, Journey, Placed, WellFormed, Select;
  }

  // ------------------------------------------------------------------ whole runs

  ghost predicate Invariant(w: World, limit: Option<nat>) {
    Sane(w) && Balanced(w.table, w.requests) && Conserved(w, limit)
  }

  /** A router without replicas and `n` requests yet to come. */
  function Initial(policy: Policy, limit: Option<nat>, depth: nat, n: nat): World {
    World(Table([], [], policy, 0, 0, 0), PermitsFor(limit), 0, depth, 0, seq(n, i => ARRIVING))
  }

  lemma {:induction false} NothingYet(qs: seq<Request>, m: Measure)
    requires forall i :: 0 <= i < |qs| ==> qs[i] == ARRIVING
    ensures Total(qs, m) == 0
  {
    if qs != [] {
      NothingYet(qs[1..], m);
    }
  }

  lemma InitialInvariant(policy: Policy, limit: Option<nat>, depth: nat, n: nat)
    requires limit.Some? ==> limit.value > 0
    ensures Invariant(Initial(policy, limit, depth, n), limit)
  {
    var w := Initial(policy, limit, depth, n);
    forall m ensures Total(w.requests, m) == 0 {
      NothingYet(w.requests, m);
    }
  }

  ghost predicate Possible(w: World, steps: seq<Step>)
    requires Sane(w)
    decreases |steps|
  {
    steps == [] || (Enabled(w, steps[0]) && (StepKeeps(w, steps[0]); Possible(Next(w, steps[0]), steps[1..])))
  }

  ghost function Outcome(w: World, steps: seq<Step>): World
    requires Sane(w) && Possible(w, steps)
    decreases |steps|
  {
    if steps == [] then w else (StepKeeps(w, steps[0]); Outcome(Next(w, steps[0]), steps[1..]))
  }

  /** Any interleaving of requests, replica changes and failures keeps the journeys, the books and the permits. */
  lemma {:induction false} RunKeeps(w: World, steps: seq<Step>, limit: Option<nat>)
    requires Invariant(w, limit) && Possible(w, steps)
    ensures Invariant(Outcome(w, steps), limit)
    decreases |steps|
  {
    hide Journey, Placed, WellFormed, Balanced, Conserved, Next, Enabled;
    if steps != [] {
      StepKeeps(w, steps[0]);
      LedgerStep(w, steps[0]);
      PermitsStep(w, steps[0], limit);
      RunKeeps(Next(w, steps[0]), steps[1..], limit);
    }
  }

  lemma {:induction false} AllFinished(qs: seq<Request>)
    requires forall i :: 0 <= i < |qs| ==> qs[i].phase.Finished?
    ensures Total(qs, Leases) == 0 && forall c: nat :: Total(qs, Holding(c)) == 0
  {
    if qs != [] {
      AllFinished(qs[1..]);
    }
  }

  /** When every request is over, no replica is left busy, and every permit is free again. */
  lemma Quiescence(w: World, limit: Option<nat>)
    requires Invariant(w, limit)
    requires forall i :: 0 <= i < |w.requests| ==> w.requests[i].phase.Finished?
    ensures forall c :: 0 <= c < |w.table.cells| ==> w.table.cells[c].inflight == 0
    ensures limit.Some? ==> w.permits == Some(Permits(limit.value, []))
    ensures w.waiting == 0
  {
    AllFinished(w.requests);
    forall c: nat | c < |w.table.cells| ensures w.table.cells[c].inflight == 0 {
      assert CellBalanced(w.table.cells[c], c, w.requests);
    }
    if limit.Some? {
      var queue := w.permits.value.queue;
      assert queue == [] by {
        assert queue != [] ==> Queued(queue, queue[0].task);
      }
    }
    hide Total;
  }

  /**
   * What a proxied request has done by the time it is over, whichever way it ended: at most two
   * attempts on different replica ids, one release if it was ever leased, one charge for each
   * attempt that ended in a transport error, a discarded 5xx or a mid-stream drop, none otherwise;
   * and one cleanup, by the response if the client was given one and by the handler if not.
   */
  lemma FinishedRequest(w: World, i: nat)
    requires Sane(w) && i < |w.requests| && w.requests[i].phase.Finished?
    ensures
      var q := w.requests[i];
      && |q.attempts| <= 2
      && (|q.attempts| == 2 ==> q.attempts[0].id != q.attempts[1].id)
      && q.releases == (if q.attempts == [] then 0 else 1)
      && q.cleanups == (if q.attempts != [] && Reached(Last(q).verdict) then [ResponseEnd] else [HandlerExit])
      && forall k :: 0 <= k < |q.attempts| ==>
           var v := q.attempts[k].verdict;
           q.attempts[k].charges == (if v.HttpError? || v.ServerError? || v.Dropped? then 1 else 0)
  {
  }

  function RequestOf(s: Step): int {
    match s
    case Arrive(i) => i case Granting(i) => i case CancelWait(i) => i case Reply(i, _) => i
    case Discarded(i, _) => i case StreamEnd(i, _) => i case ConnectionClosed(i) => i
    case _ => -1
  }

  /**
   * A step makes at most one attempt, for its own request, on a replica that is routable and
   * healthy at that moment, and never once a response has been accepted.
   */
  lemma AttemptsAreEarned(w: World, s: Step, i: nat)
    requires Sane(w) && Enabled(w, s) && i < |w.requests|
    requires |Next(w, s).requests[i].attempts| > |w.requests[i].attempts|
    ensures
      var before, after := w.requests[i], Next(w, s).requests[i];
      && i == RequestOf(s) && |after.attempts| == |before.attempts| + 1
      && (before.phase.Arriving? || before.phase.Waiting? || before.phase.Sending? || before.phase.Discarding?)
      && Chosen(w.table, before.excluded, Last(after))
  {
    if i != RequestOf(s) {
      OnlyOwnRequest(w, s, i);
    }
    hide Add, Remove, SetStatus, Select, Placed, WellFormed, Chosen, Enter, Retry, Judge, Finish;
    match s
    case Arrive(k) =>
      if w.permits.None? {
        EnterEarns(w, k);
      } else if !w.permits.value.Locked() {
        EnterEarns(w.(permits := Some(TakeFree(w.permits.value))), k);
      }
    case Granting(k) =>
      EnterEarns(w.(permits := Some(Semaphore.Resume(w.permits.value, k)), waiting := w.waiting - 1), k);
    case CancelWait(k) =>
    case _ => ProgressEarns(w, s, i);
  }

  lemma ProgressEarns(w: World, s: Step, i: nat)
    requires Sane(w) && Enabled(w, s) && i == RequestOf(s)
    requires s.Reply? || s.Discarded? || s.StreamEnd? || s.ConnectionClosed?
    requires |Next(w, s).requests[i].attempts| > |w.requests[i].attempts|
    ensures s.Reply? || s.Discarded?
    ensures
      var before, after := w.requests[i], Next(w, s).requests[i];
      |after.attempts| == |before.attempts| + 1 && Chosen(w.table, before.excluded, Last(after))
  {
    hide Select, Placed, WellFormed, Chosen, Retry, Routing.Release;
    match s
    case Reply(k, _) => RetryEarns(w, k, HttpError, "transport error");
    case Discarded(k, _) => RetryEarns(w, k, ServerError, "HTTP 5xx");
    case _ =>
  }

  /** A step changes no request but its own. */
  lemma OnlyOwnRequest(w: World, s: Step, j: nat)
    requires Sane(w) && Enabled(w, s) && j < |w.requests| && j != RequestOf(s)
    ensures Next(w, s).requests[j] == w.requests[j]
  {
    hide Add, Remove, SetStatus, Select, Placed, WellFormed, Judge, Leased, Routing.Release, Move, Admit, Journey;
  }

  /** An attempt on a replica that was routable, healthy and not tried before. */
  predicate Chosen(t: Table, excluded: set<string>, a: Attempt) {
    && a.cell in t.entries && a.cell < |t.cells| && t.cells[a.cell].status.Healthy?
    && a.id == t.cells[a.cell].id && a.id !in excluded
  }

  lemma EnterEarns(w: World, i: nat)
    requires Sane(w) && i < |w.requests| && w.requests[i].attempts == [] && w.requests[i].excluded == {}
    ensures
      var after := Enter(w, i).requests[i];
      after.attempts != [] ==> |after.attempts| == 1 && Chosen(w.table, {}, Last(after))
  {
    SelectExact(w.table, {});
  }

  lemma RetryEarns(w: World, i: nat, verdict: Verdict, error: string)
    requires Sane(w) && i < |w.requests| && w.requests[i].attempts != []
    ensures
      var before, after := w.requests[i], Retry(w, i, verdict, error).requests[i];
      |after.attempts| > |before.attempts| ==>
        |after.attempts| == |before.attempts| + 1 && Chosen(w.table, before.excluded, Last(after))
  {
    SelectExact(w.table, w.requests[i].excluded);
  }

  // ------------------------------------------------------------------ where the promises stop

  /** A 5xx attempt is charged if and only if discarding its response went cleanly. */
  lemma DiscardDecidesCharge(w: World, i: nat, clean: bool)
    requires Sane(w) && Enabled(w, Discarded(i, clean))
    ensures
      var k := |w.requests[i].attempts| - 1;
      var after := Next(w, Discarded(i, clean)).requests[i];
      && k < |after.attempts| && after.attempts[k].charges == (if clean then 1 else 0)
      && (!clean ==> after.phase.Finished? && Next(w, Discarded(i, clean)).table.totalErrors == w.table.totalErrors)
  {
  }

  /** `set_max_concurrency`: a new semaphore replaces the one in use. */
  function SetLimit(w: World, limit: Option<nat>): World {
    w.(permits := PermitsFor(limit))
  }

  /** Replacing the semaphore conserves permits exactly when nothing is waiting and, if there is a new limit, nothing is leased. */
  lemma LimitChangeConserves(w: World, before: Option<nat>, limit: Option<nat>)
    requires Conserved(w, before) && (limit.Some? ==> limit.value > 0)
    ensures Conserved(SetLimit(w, limit), limit) <==> w.waiting == 0 && (limit.Some? ==> Total(w.requests, Leases) == 0)
  {
    if w.waiting == 0 && before.Some? {
      assert w.permits.value.queue == [];
    }
  }

  /** A waiting request that the semaphore in use does not know. */
  predicate Stranded(w: World, i: nat) {
    i < |w.requests| && w.requests[i].phase.Waiting? && (w.permits.Some? ==> !Queued(w.permits.value.queue, i))
  }

  /**
   * Replacing the semaphore while no waiter has been handed a permit strands every waiting request:
   * the new semaphore does not know it, and the old one, which nobody releases any more, never lets
   * any of its waiters resume.
   */
  lemma LimitChangeStrands(w: World, before: nat, limit: Option<nat>, i: nat, ds: seq<Departure>)
    requires Conserved(w, Some(before)) && i < |w.requests| && w.requests[i].phase.Waiting?
    requires GrantedCount(w.permits.value.queue) == 0 && MayAllDepart(w.permits.value, ds)
    ensures Stranded(SetLimit(w, limit), i)
    ensures forall d :: d in ds ==> d.Leaves?
  {
    assert Queued(w.permits.value.queue, i);
    RetiredServesNobody(w.permits.value, ds);
    hide Fair, Units;
  }

  /** The semaphore in use never resumes a request it does not know; only its own cancellation moves it. */
  lemma StrandedStays(w: World, s: Step, i: nat)
    requires Sane(w) && Enabled(w, s) && Stranded(w, i) && s != CancelWait(i)
    ensures Stranded(Next(w, s), i)
  {
    if w.permits.Some? && s == Granting(i) {
      GrantedIsQueued(w.permits.value.queue, i);
    }
    OnlyOwnRequest(w, s, i);
    StrandedQueue(w, s, i);
    hide Next, Enabled, Sane;
  }

  lemma StrandedQueue(w: World, s: Step, i: nat)
    requires Sane(w) && Enabled(w, s) && i != RequestOf(s) && (w.permits.Some? ==> !Queued(w.permits.value.queue, i))
    ensures Next(w, s).permits.Some? ==> !Queued(Next(w, s).permits.value.queue, i)
  {
    if w.permits.Some? {
      var p := w.permits.value;
      if s.Granting? {
        OperationsKeepLine(p, s.i, i);
        OperationsKeepLine(Semaphore.Resume(p, s.i), 0, i);
      } else {
        OperationsKeepLine(p, if RequestOf(s) >= 0 then RequestOf(s) else 0, i);
      }
    }
    hide Add, Remove, SetStatus, Select, Admit, Move, Routing.Release, Journey, Placed, WellFormed, Judge, Leased;
    hide Semaphore.Resume, Leave, Semaphore.Release, Join, Queued, Granted, InLine;
  }

  /** Over any run that does not cancel it, a stranded request goes on waiting. */
  lemma {:induction false} StrandedForever(w: World, steps: seq<Step>, i: nat)
    requires Sane(w) && Possible(w, steps) && Stranded(w, i) && CancelWait(i) !in steps
    ensures Stranded(Outcome(w, steps), i)
    decreases |steps|
  {
    if steps != [] {
      StepKeeps(w, steps[0]);
      StrandedStays(w, steps[0], i);
      hide Sane, Stranded, Next, Enabled;
      StrandedForever(Next(w, steps[0]), steps[1..], i);
    }
  }

  /**
   * A limit changed while requests wait, none of them yet handed a permit: whatever happens from
   * then on, each of them waits until it is cancelled.
   */
  lemma LimitChangeStrandsForever(w: World, before: nat, limit: Option<nat>, steps: seq<Step>, i: nat)
    requires Sane(w) && Conserved(w, Some(before)) && GrantedCount(w.permits.value.queue) == 0
    requires i < |w.requests| && w.requests[i].phase.Waiting?
    requires Sane(SetLimit(w, limit)) && Possible(SetLimit(w, limit), steps) && CancelWait(i) !in steps
    ensures
      var after := Outcome(SetLimit(w, limit), steps);
      i < |after.requests| && after.requests[i].phase.Waiting?
  {
    LimitChangeStrands(w, before, limit, i, []);
    hide Sane, Conserved, Possible, Outcome;
    StrandedForever(SetLimit(w, limit), steps, i);
  }
}

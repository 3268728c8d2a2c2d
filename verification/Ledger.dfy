/** The router's books balance in every reachable state, whatever the interleaving. */
module Ledger {
  import opened Common
  import opened Semaphore
  import opened Routing
  import opened Proxy

  // ------------------------------------------------------------------ what requests owe

  /** Something to count over all requests; the first three are counted per cell. */
  datatype Measure = Holding(cell: nat) | Sent(cell: nat) | Charged(cell: nat) | Errors | Moves | Admitted | Leases

  function SentTo(attempts: seq<Attempt>, c: nat): int {
    if attempts == [] then 0
    else SentTo(attempts[..|attempts| - 1], c) + (if attempts[|attempts| - 1].cell == c then 1 else 0)
  }

  function ChargedTo(attempts: seq<Attempt>, c: nat): int {
    if attempts == [] then 0
    else
      ChargedTo(attempts[..|attempts| - 1], c)
      + (if attempts[|attempts| - 1].cell == c then attempts[|attempts| - 1].charges else 0)
  }

  function Amount(q: Request, m: Measure): int {
    match m
    case Holding(c) => if Live(q) && Last(q).cell == c then 1 else 0
    case Sent(c) => SentTo(q.attempts, c)
    case Charged(c) => ChargedTo(q.attempts, c)
    case Errors => if q.phase.Finished? && q.attempts != [] && q.error.Some? then 1 else 0
    case Moves => if |q.attempts| >= 2 then |q.attempts| - 1 else 0
    case Admitted => if q.attempts != [] then 1 else 0
    case Leases => if Live(q) then 1 else 0
  }

  function Total(qs: seq<Request>, m: Measure): int {
    if qs == [] then 0 else Amount(qs[0], m) + Total(qs[1..], m)
  }

  lemma {:induction false} TotalUpdate(qs: seq<Request>, i: nat, q: Request, m: Measure)
    requires i < |qs|
    ensures Total(qs[i := q], m) == Total(qs, m) - Amount(qs[i], m) + Amount(q, m)
  {
    hide Amount;
    if i == 0 {
      assert qs[i := q][1..] == qs[1..];
    } else {
      assert qs[i := q][1..] == qs[1..][i - 1 := q];
      TotalUpdate(qs[1..], i - 1, q, m);
    }
  }

  lemma {:induction false} TotalAtLeast(qs: seq<Request>, i: nat, m: Measure)
    requires i < |qs| && forall k :: 0 <= k < |qs| ==> Amount(qs[k], m) >= 0
    ensures Total(qs, m) >= Amount(qs[i], m) >= 0
  {
    hide Amount;
    if |qs| > 1 {
      TotalAtLeast(qs[1..], if i == 0 then 0 else i - 1, m);
    }
  }

  // ------------------------------------------------------------------ sums over replicas

  datatype Column = FailureColumn | RequestColumn

  function Entry(cell: Cell, column: Column): int {
    match column case FailureColumn => cell.failures case RequestColumn => cell.requests
  }

  function ColumnSum(cells: seq<Cell>, column: Column): int {
    if cells == [] then 0 else ColumnSum(cells[..|cells| - 1], column) + Entry(cells[|cells| - 1], column)
  }

  lemma {:induction false} ColumnUpdate(cells: seq<Cell>, c: nat, cell: Cell, column: Column)
    requires c < |cells|
    ensures ColumnSum(cells[c := cell], column) == ColumnSum(cells, column) - Entry(cells[c], column) + Entry(cell, column)
    decreases |cells|
  {
    hide Entry;
    var n := |cells| - 1;
    if c == n {
      assert cells[c := cell][..n] == cells[..n];
    } else {
      assert cells[c := cell][..n] == cells[..n][c := cell];
      ColumnUpdate(cells[..n], c, cell, column);
    }
  }

  lemma ColumnAppend(cells: seq<Cell>, cell: Cell, column: Column)
    ensures ColumnSum(cells + [cell], column) == ColumnSum(cells, column) + Entry(cell, column)
  {
    assert (cells + [cell])[..|cells|] == cells;
  }

  // ------------------------------------------------------------------ the invariant

  /** One replica state's counters agree with the requests that used it. */
  predicate CellBalanced(cell: Cell, c: nat, qs: seq<Request>) {
    && cell.inflight == Total(qs, Holding(c))
    && cell.requests == Total(qs, Sent(c))
    && cell.failures == Total(qs, Charged(c))
  }

  ghost predicate CellsBalanced(cells: seq<Cell>, qs: seq<Request>) {
    forall c: nat :: c < |cells| ==> CellBalanced(cells[c], c, qs)
  }

  /** The router-wide counters agree with the requests, and with the sums over replicas. */
  predicate TotalsBalanced(t: Table, qs: seq<Request>) {
    && t.totalErrors == Total(qs, Errors)
    && t.totalRequests == Total(qs, Admitted)
    && ColumnSum(t.cells, FailureColumn) == t.totalErrors + Total(qs, Moves)
    && ColumnSum(t.cells, RequestColumn) == t.totalRequests + Total(qs, Moves)
  }

  ghost predicate Balanced(t: Table, qs: seq<Request>) {
    CellsBalanced(t.cells, qs) && TotalsBalanced(t, qs)
  }

  // ------------------------------------------------------------------ how one request's amounts change

  lemma SentAppend(attempts: seq<Attempt>, a: Attempt, c: nat)
    ensures SentTo(attempts + [a], c) == SentTo(attempts, c) + (if a.cell == c then 1 else 0)
    ensures ChargedTo(attempts + [a], c) == ChargedTo(attempts, c) + (if a.cell == c then a.charges else 0)
  {
    assert (attempts + [a])[..|attempts|] == attempts;
  }

  /** Judging the last attempt adds its charge to its own cell and moves nothing else. */
  lemma JudgedAmounts(q: Request, verdict: Verdict, charge: nat, c: nat)
    requires q.attempts != []
    ensures SentTo(Judge(q, verdict, charge).attempts, c) == SentTo(q.attempts, c)
    ensures ChargedTo(Judge(q, verdict, charge).attempts, c) ==
              ChargedTo(q.attempts, c) + (if Last(q).cell == c then charge else 0)
  {
    var n := |q.attempts| - 1;
    assert Judge(q, verdict, charge).attempts[..n] == q.attempts[..n];
  }

  lemma {:induction false} NothingSent(attempts: seq<Attempt>, c: nat)
    requires forall k :: 0 <= k < |attempts| ==> attempts[k].cell != c
    ensures SentTo(attempts, c) == 0 && ChargedTo(attempts, c) == 0
  {
    if attempts != [] {
      NothingSent(attempts[..|attempts| - 1], c);
    }
  }

  function Bump(m: Measure, c: nat, holding: int, sent: int, charged: int): int {
    match m
    case Holding(d) => if d == c then holding else 0
    case Sent(d) => if d == c then sent else 0
    case Charged(d) => if d == c then charged else 0
    case _ => 0
  }

  /** A request without attempts takes its lease on cell `c`. */
  lemma LeasedAmounts(q: Request, c: nat, id: string, m: Measure)
    requires q.attempts == []
    ensures Amount(Leased(q, c, id), m) ==
              Amount(q, m) + Bump(m, c, 1, 1, 0) + (if m.Admitted? || m.Leases? then 1 else 0)
  {
    if m.Sent? || m.Charged? {
      SentAppend(q.attempts, Attempt(c, id, Pending, 0), m.cell);
    }
  }

  lemma ReleasedAmounts(q: Request, c: nat, id: string, m: Measure)
    requires Live(q) && |q.attempts| == 1
    ensures Amount(Leased(q, c, id), m) ==
              Amount(q, m) + Bump(m, Last(q).cell, -1, 0, 0) + Bump(m, c, 1, 1, 0) + (if m.Moves? then 1 else 0)
  {
    var p := Leased(q, c, id);
    assert Live(p) && |p.attempts| == 2 && Last(p).cell == c;
    if m.Sent? || m.Charged? {
      SentAppend(q.attempts, Attempt(c, id, Pending, 0), m.cell);
    }
    hide Leased, SentTo, ChargedTo;
  }

  lemma ChargedAmounts(q: Request, verdict: Verdict, m: Measure)
    requires Live(q)
    ensures Live(Judge(q, verdict, 1)) && Last(Judge(q, verdict, 1)).cell == Last(q).cell
    ensures Amount(Judge(q, verdict, 1), m) == Amount(q, m) + Bump(m, Last(q).cell, 0, 0, 1)
  {
    if m.Sent? || m.Charged? {
      JudgedAmounts(q, verdict, 1, m.cell);
    }
  }

  /** A live request with one attempt is charged for it and moves to cell `c`. */
  lemma MovedAmounts(q: Request, verdict: Verdict, c: nat, id: string, m: Measure)
    requires Live(q) && |q.attempts| == 1
    ensures Amount(Leased(Judge(q, verdict, 1), c, id), m) ==
              Amount(q, m) + Bump(m, Last(q).cell, -1, 0, 1) + Bump(m, c, 1, 1, 0) + (if m.Moves? then 1 else 0)
  {
    ChargedAmounts(q, verdict, m);
    ReleasedAmounts(Judge(q, verdict, 1), c, id, m);
    hide Leased, Amount, Live;
  }

  /** A live request gives its lease up. */
  lemma FinishedAmounts(q: Request, error: Option<string>, verdict: Verdict, m: Measure)
    requires Live(q)
    ensures
      var charge := if error.Some? then 1 else 0;
      Amount(Ended(q, error, verdict), m) ==
        Amount(q, m) + Bump(m, Last(q).cell, -1, 0, charge)
        + (if m.Errors? then charge else if m.Leases? then -1 else 0)
  {
    if m.Sent? || m.Charged? {
      JudgedAmounts(q, verdict, if error.Some? then 1 else 0, m.cell);
    }
  }

  /** Changing the phase of a live request, or judging it without a charge, changes no amount. */
  lemma PhaseAmounts(q: Request, p: Request, verdict: Verdict, m: Measure)
    requires Live(q) && Live(p) && p.attempts == Judge(q, verdict, 0).attempts
    ensures Amount(p, m) == Amount(q, m)
  {
    if m.Sent? || m.Charged? {
      JudgedAmounts(q, verdict, 0, m.cell);
    }
  }

  // ------------------------------------------------------------------ how the books follow

  lemma SameAmounts(t: Table, qs: seq<Request>, i: nat, q: Request)
    requires Balanced(t, qs) && i < |qs| && forall m :: Amount(q, m) == Amount(qs[i], m)
    ensures Balanced(t, qs[i := q])
  {
    hide Amount, Total, ColumnSum;
    forall m ensures Total(qs[i := q], m) == Total(qs, m) {
      TotalUpdate(qs, i, q, m);
    }
    assert forall c: nat :: c < |t.cells| ==> CellBalanced(t.cells[c], c, qs);
  }

  /** The live lease on a cell keeps its in-flight count positive, so no decrement is ever clamped. */
  lemma NeverClamped(t: Table, qs: seq<Request>, i: nat)
    requires Balanced(t, qs) && i < |qs| && Live(qs[i]) && Last(qs[i]).cell < |t.cells|
    ensures t.cells[Last(qs[i]).cell].inflight >= 1
  {
    var c := Last(qs[i]).cell;
    assert CellBalanced(t.cells[c], c, qs);
    TotalAtLeast(qs, i, Holding(c));
  }

  lemma LeaseTotal(qs: seq<Request>, i: nat, c: nat, id: string, m: Measure)
    requires i < |qs| && qs[i].attempts == []
    ensures Total(qs[i := Leased(qs[i], c, id)], m) ==
              Total(qs, m) + Bump(m, c, 1, 1, 0) + (if m.Admitted? || m.Leases? then 1 else 0)
  {
    TotalUpdate(qs, i, Leased(qs[i], c, id), m);
    LeasedAmounts(qs[i], c, id, m);
    hide Amount, Total;
  }

  lemma AdmitCell(t: Table, qs: seq<Request>, i: nat, choice: Choice, id: string, d: nat)
    requires CellsBalanced(t.cells, qs) && i < |qs| && qs[i].attempts == [] && choice.cell < |t.cells| && d < |t.cells|
    ensures CellBalanced(Admit(t, choice).cells[d], d, qs[i := Leased(qs[i], choice.cell, id)])
  {
    assert CellBalanced(t.cells[d], d, qs);
    LeaseTotal(qs, i, choice.cell, id, Holding(d));
    LeaseTotal(qs, i, choice.cell, id, Sent(d));
    LeaseTotal(qs, i, choice.cell, id, Charged(d));
    hide Total, Leased, CellsBalanced;
  }

  lemma AdmitTotals(t: Table, qs: seq<Request>, i: nat, choice: Choice, id: string)
    requires TotalsBalanced(t, qs) && i < |qs| && qs[i].attempts == [] && choice.cell < |t.cells|
    ensures TotalsBalanced(Admit(t, choice), qs[i := Leased(qs[i], choice.cell, id)])
  {
    var c := choice.cell;
    ColumnUpdate(t.cells, c, Opened(t.cells[c]), FailureColumn);
    ColumnUpdate(t.cells, c, Opened(t.cells[c]), RequestColumn);
    LeaseTotal(qs, i, c, id, Errors);
    LeaseTotal(qs, i, c, id, Admitted);
    LeaseTotal(qs, i, c, id, Moves);
    hide Total, ColumnSum, Leased;
  }

  lemma AdmitBooks(t: Table, qs: seq<Request>, i: nat, choice: Choice, id: string)
    requires Balanced(t, qs) && i < |qs| && qs[i].attempts == [] && choice.cell < |t.cells|
    ensures Balanced(Admit(t, choice), qs[i := Leased(qs[i], choice.cell, id)])
  {
    AdmitTotals(t, qs, i, choice, id);
    hide CellBalanced, TotalsBalanced, Leased;
    forall d: nat | d < |t.cells|
      ensures CellBalanced(Admit(t, choice).cells[d], d, qs[i := Leased(qs[i], choice.cell, id)])
    {
      AdmitCell(t, qs, i, choice, id, d);
    }
  }

  lemma MoveTotals(t: Table, from: nat, choice: Choice, error: Option<string>)
    requires from < |t.cells| && choice.cell < |t.cells|
    ensures
      var u := Move(t, from, choice, error);
      && ColumnSum(u.cells, FailureColumn) == ColumnSum(t.cells, FailureColumn) + 1
      && ColumnSum(u.cells, RequestColumn) == ColumnSum(t.cells, RequestColumn) + 1
  {
    var c := choice.cell;
    var charged := t.cells[from := Closed(t.cells[from], true, error)];
    ColumnUpdate(t.cells, from, charged[from], FailureColumn);
    ColumnUpdate(t.cells, from, charged[from], RequestColumn);
    ColumnUpdate(charged, c, Opened(charged[c]), FailureColumn);
    ColumnUpdate(charged, c, Opened(charged[c]), RequestColumn);
    hide ColumnSum;
  }

  /** What the counters of cell `d` become when a lease moves from one cell to another. */
  lemma MoveCell(t: Table, from: nat, choice: Choice, error: Option<string>, d: nat)
    requires from < |t.cells| && choice.cell < |t.cells| && choice.cell != from && d < |t.cells|
    requires t.cells[from].inflight >= 1
    ensures
      var before, after := t.cells[d], Move(t, from, choice, error).cells[d];
      && after.inflight == before.inflight + (if d == from then -1 else 0) + (if d == choice.cell then 1 else 0)
      && after.requests == before.requests + (if d == choice.cell then 1 else 0)
      && after.failures == before.failures + (if d == from then 1 else 0)
  {
  }

  function MovedTo(qs: seq<Request>, i: nat, c: nat, id: string, verdict: Verdict): seq<Request>
    requires i < |qs| && qs[i].attempts != []
  {
    qs[i := Leased(Judge(qs[i], verdict, 1), c, id)]
  }

  lemma MoveTotal(qs: seq<Request>, i: nat, c: nat, id: string, verdict: Verdict, m: Measure)
    requires i < |qs| && Live(qs[i]) && |qs[i].attempts| == 1
    ensures Total(MovedTo(qs, i, c, id, verdict), m) ==
              Total(qs, m) + Bump(m, Last(qs[i]).cell, -1, 0, 1) + Bump(m, c, 1, 1, 0) + (if m.Moves? then 1 else 0)
  {
    TotalUpdate(qs, i, Leased(Judge(qs[i], verdict, 1), c, id), m);
    MovedAmounts(qs[i], verdict, c, id, m);
    hide Amount, Total;
  }

  lemma MovedCell(
      t: Table, qs: seq<Request>, i: nat, choice: Choice, id: string, verdict: Verdict, error: Option<string>, d: nat)
    requires CellsBalanced(t.cells, qs) && i < |qs| && Live(qs[i]) && |qs[i].attempts| == 1 && d < |t.cells|
    requires choice.cell < |t.cells| && Last(qs[i]).cell < |t.cells| && choice.cell != Last(qs[i]).cell
    requires t.cells[Last(qs[i]).cell].inflight >= 1
    ensures CellBalanced(Move(t, Last(qs[i]).cell, choice, error).cells[d], d, MovedTo(qs, i, choice.cell, id, verdict))
  {
    assert CellBalanced(t.cells[d], d, qs);
    MoveCell(t, Last(qs[i]).cell, choice, error, d);
    MoveTotal(qs, i, choice.cell, id, verdict, Holding(d));
    MoveTotal(qs, i, choice.cell, id, verdict, Sent(d));
    MoveTotal(qs, i, choice.cell, id, verdict, Charged(d));
    hide Total, Live, Move, MovedTo, Last, CellsBalanced;
  }

  lemma MoveBooks(t: Table, qs: seq<Request>, i: nat, choice: Choice, id: string, verdict: Verdict, error: Option<string>)
    requires Balanced(t, qs) && i < |qs| && Live(qs[i]) && |qs[i].attempts| == 1
    requires choice.cell < |t.cells| && Last(qs[i]).cell < |t.cells| && choice.cell != Last(qs[i]).cell
    ensures Balanced(Move(t, Last(qs[i]).cell, choice, error), MovedTo(qs, i, choice.cell, id, verdict))
  {
    var from, c := Last(qs[i]).cell, choice.cell;
    var u, ps := Move(t, from, choice, error), MovedTo(qs, i, c, id, verdict);
    NeverClamped(t, qs, i);
    MoveTotals(t, from, choice, error);
    MoveTotal(qs, i, c, id, verdict, Errors);
    MoveTotal(qs, i, c, id, verdict, Admitted);
    MoveTotal(qs, i, c, id, verdict, Moves);
    assert |u.cells| == |t.cells| && u.totalErrors == t.totalErrors && u.totalRequests == t.totalRequests;
    hide Total, ColumnSum, Live, Move, MovedTo, Last, CellBalanced;
    forall d: nat | d < |u.cells| ensures CellBalanced(u.cells[d], d, ps) {
      MovedCell(t, qs, i, choice, id, verdict, error, d);
    }
  }

  lemma FinishTotal(qs: seq<Request>, i: nat, error: Option<string>, verdict: Verdict, m: Measure)
    requires i < |qs| && Live(qs[i])
    ensures
      var charge := if error.Some? then 1 else 0;
      Total(qs[i := Ended(qs[i], error, verdict)], m) ==
        Total(qs, m) + Bump(m, Last(qs[i]).cell, -1, 0, charge)
        + (if m.Errors? then charge else if m.Leases? then -1 else 0)
  {
    TotalUpdate(qs, i, Ended(qs[i], error, verdict), m);
    FinishedAmounts(qs[i], error, verdict, m);
    hide Amount, Total;
  }

  lemma FinishBooks(t: Table, qs: seq<Request>, i: nat, error: Option<string>, verdict: Verdict)
    requires Balanced(t, qs) && i < |qs| && Live(qs[i]) && Last(qs[i]).cell < |t.cells|
    ensures
      Balanced(Routing.Release(t, Last(qs[i]).cell, error.Some?, error), qs[i := Ended(qs[i], error, verdict)])
  {
    var from := Last(qs[i]).cell;
    var u, ps := Routing.Release(t, from, error.Some?, error), qs[i := Ended(qs[i], error, verdict)];
    NeverClamped(t, qs, i);
    ColumnUpdate(t.cells, from, Closed(t.cells[from], error.Some?, error), FailureColumn);
    ColumnUpdate(t.cells, from, Closed(t.cells[from], error.Some?, error), RequestColumn);
    FinishTotal(qs, i, error, verdict, Errors);
    FinishTotal(qs, i, error, verdict, Admitted);
    FinishTotal(qs, i, error, verdict, Moves);
    hide Total, ColumnSum, Live, Ended, Last;
    forall d: nat | d < |u.cells| ensures CellBalanced(u.cells[d], d, ps) {
      assert CellBalanced(t.cells[d], d, qs);
      FinishTotal(qs, i, error, verdict, Holding(d));
      FinishTotal(qs, i, error, verdict, Sent(d));
      FinishTotal(qs, i, error, verdict, Charged(d));
    }
  }

  lemma {:induction false} UnusedCell(qs: seq<Request>, cells: seq<Cell>, c: nat)
    requires forall i :: 0 <= i < |qs| ==> Placed(qs[i], cells)
    requires c >= |cells|
    ensures Total(qs, Holding(c)) == 0 && Total(qs, Sent(c)) == 0 && Total(qs, Charged(c)) == 0
  {
    if qs != [] {
      NothingSent(qs[0].attempts, c);
      UnusedCell(qs[1..], cells, c);
    }
  }

  /** A new cell starts with clean books, even under an id that was used before. */
  lemma AddBooks(t: Table, qs: seq<Request>, id: string)
    requires WellFormed(t) && Balanced(t, qs)
    requires forall i :: 0 <= i < |qs| ==> Placed(qs[i], t.cells)
    ensures Balanced(Add(t, id), qs)
  {
    UnusedCell(qs, t.cells, |t.cells|);
    ColumnAppend(t.cells, NewCell(id), FailureColumn);
    ColumnAppend(t.cells, NewCell(id), RequestColumn);
    hide Amount, Total, ColumnSum, WellFormed;
    assert forall d: nat :: d < |t.cells| ==> CellBalanced(t.cells[d], d, qs);
  }

  lemma StatusBooks(t: Table, qs: seq<Request>, id: string, status: Health, error: Option<string>)
    requires WellFormed(t) && Balanced(t, qs)
    ensures Balanced(SetStatus(t, id, status, error), qs)
  {
    var k := Position(t, id);
    hide Amount, Total, ColumnSum, WellFormed;
    if k < |t.entries| {
      var c := t.entries[k];
      ColumnUpdate(t.cells, c, SetStatus(t, id, status, error).cells[c], FailureColumn);
      ColumnUpdate(t.cells, c, SetStatus(t, id, status, error).cells[c], RequestColumn);
      assert forall d: nat :: d < |t.cells| ==> CellBalanced(t.cells[d], d, qs);
    }
  }
}

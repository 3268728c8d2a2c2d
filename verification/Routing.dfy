/**
 * The routing table and the books it keeps. Every replica state ever created has a cell, which
 * outlives its removal from the table: leases taken before go on charging it.
 */
module Routing {
  import opened Common

  datatype Health = Starting | Healthy | Unhealthy | Stopped

  datatype Cell = Cell(
    id: string, status: Health, inflight: int, requests: int, failures: int, lastError: Option<string>,
    healthFailures: int, restarts: int)

  datatype Policy = LeastInflight | RoundRobin

  /** `table` lists the cells that are routable, in insertion order, at most one per id. */
  datatype Table = Table(
    cells: seq<Cell>, entries: seq<nat>, policy: Policy, tick: nat, totalRequests: int, totalErrors: int)

  predicate WellFormed(t: Table) {
    && (forall k :: 0 <= k < |t.entries| ==> t.entries[k] < |t.cells|)
    && (forall j, k :: 0 <= j < k < |t.entries| ==> t.cells[t.entries[j]].id != t.cells[t.entries[k]].id)
  }

  /** Where an id stands in the table, or the table's length. */
  function Position(t: Table, id: string): (k: nat)
    requires WellFormed(t)
    ensures k <= |t.entries|
  {
    PositionFrom(t, id, 0)
  }

  function PositionFrom(t: Table, id: string, from: nat): (k: nat)
    requires WellFormed(t) && from <= |t.entries|
    ensures from <= k <= |t.entries|
    decreases |t.entries| - from
  {
    if from == |t.entries| || t.cells[t.entries[from]].id == id then from else PositionFrom(t, id, from + 1)
  }

  lemma {:induction false} PositionExact(t: Table, id: string, from: nat)
    requires WellFormed(t) && from <= |t.entries|
    ensures
      var k := PositionFrom(t, id, from);
      if k < |t.entries| then t.cells[t.entries[k]].id == id
      else forall j :: from <= j < |t.entries| ==> t.cells[t.entries[j]].id != id
    decreases |t.entries| - from
  {
    if from < |t.entries| && t.cells[t.entries[from]].id != id {
      PositionExact(t, id, from + 1);
    }
  }

  // ------------------------------------------------------------------ managing replicas

  function NewCell(id: string): Cell {
    Cell(id, Starting, 0, 0, 0, None, 0, 0)
  }

  /** Register a replica; an existing entry with the same id is replaced, in place. */
  function Add(t: Table, id: string): (u: Table)
    requires WellFormed(t)
    ensures WellFormed(u)
  {
    PositionExact(t, id, 0);
    var k := Position(t, id);
    t.(cells := t.cells + [NewCell(id)],
       entries := if k < |t.entries| then t.entries[k := |t.cells|] else t.entries + [|t.cells|])
  }

  lemma AddInTwoSteps(t: Table, id: string, u: Table)
    requires WellFormed(t)
    requires
      var k, c := Position(t, id), |t.cells|;
      u == t.(cells := t.cells + [NewCell(id)], entries := if k < |t.entries| then t.entries[k := c] else t.entries + [c])
    ensures u == Add(t, id) && WellFormed(u)
  {
  }

  function Remove(t: Table, id: string): (u: Table)
    requires WellFormed(t)
    ensures WellFormed(u)
  {
    PositionExact(t, id, 0);
    var k := Position(t, id);
    if k < |t.entries| then t.(entries := t.entries[..k] + t.entries[k + 1..]) else t
  }

  function SetStatus(t: Table, id: string, status: Health, error: Option<string>): (u: Table)
    requires WellFormed(t)
    ensures WellFormed(u)
  {
    PositionExact(t, id, 0);
    var k := Position(t, id);
    if k == |t.entries| then t
    else
      var c := t.entries[k];
      var cell := t.cells[c].(status := status);
      t.(cells := t.cells[c := if error.Some? then cell.(lastError := error) else cell])
  }

  // ------------------------------------------------------------------ choosing a replica

  /** The healthy table entries whose ids are not excluded, in table order. */
  function Candidates(cells: seq<Cell>, entries: seq<nat>, excluded: set<string>): (cs: seq<nat>)
    requires forall k :: 0 <= k < |entries| ==> entries[k] < |cells|
    ensures forall k :: 0 <= k < |cs| ==> cs[k] < |cells|
  {
    if entries == [] then []
    else
      var rest := Candidates(cells, entries[1..], excluded);
      if cells[entries[0]].status.Healthy? && cells[entries[0]].id !in excluded then [entries[0]] + rest else rest
  }

  lemma {:induction false} CandidatesExact(cells: seq<Cell>, entries: seq<nat>, excluded: set<string>, c: nat)
    requires forall k :: 0 <= k < |entries| ==> entries[k] < |cells|
    ensures c in Candidates(cells, entries, excluded) <==>
              c in entries && cells[c].status.Healthy? && cells[c].id !in excluded
  {
    if entries != [] {
      assert entries == [entries[0]] + entries[1..];
      CandidatesExact(cells, entries[1..], excluded, c);
    }
  }

  function Least(cells: seq<Cell>, cs: seq<nat>): (m: int)
    requires cs != [] && forall k :: 0 <= k < |cs| ==> cs[k] < |cells|
    ensures forall k :: 0 <= k < |cs| ==> m <= cells[cs[k]].inflight
    ensures exists k :: 0 <= k < |cs| && cells[cs[k]].inflight == m
  {
    if |cs| == 1 then cells[cs[0]].inflight
    else
      var rest := Least(cells, cs[1..]);
      assert forall k :: 1 <= k < |cs| ==> cs[k] == cs[1..][k - 1];
      if cells[cs[0]].inflight <= rest then cells[cs[0]].inflight else rest
  }

  function Ties(cells: seq<Cell>, cs: seq<nat>, least: int): (ties: seq<nat>)
    requires forall k :: 0 <= k < |cs| ==> cs[k] < |cells|
    ensures forall k :: 0 <= k < |ties| ==> ties[k] in cs && cells[ties[k]].inflight == least
    ensures (exists k :: 0 <= k < |cs| && cells[cs[k]].inflight == least) ==> ties != []
  {
    if cs == [] then []
    else
      var rest := Ties(cells, cs[1..], least);
      if cells[cs[0]].inflight == least then [cs[0]] + rest else rest
  }

  // ------------------------------------------------------------------ the same, one entry at a time

  /** The candidates among the first `i` entries are `found`. */
  predicate CandidatesSoFar(cells: seq<Cell>, entries: seq<nat>, excluded: set<string>, i: nat, found: seq<nat>)
    requires i <= |entries| && forall k :: 0 <= k < |entries| ==> entries[k] < |cells|
  {
    Candidates(cells, entries, excluded) == found + Candidates(cells, entries[i..], excluded)
  }

  lemma CandidatesNext(cells: seq<Cell>, entries: seq<nat>, excluded: set<string>, i: nat, found: seq<nat>)
    requires i <= |entries| && forall k :: 0 <= k < |entries| ==> entries[k] < |cells|
    ensures CandidatesSoFar(cells, entries, excluded, 0, [])
    ensures CandidatesSoFar(cells, entries, excluded, i, found) ==>
              if i == |entries| then Candidates(cells, entries, excluded) == found
              else
                var cell := cells[entries[i]];
                CandidatesSoFar(cells, entries, excluded, i + 1,
                  if cell.status.Healthy? && cell.id !in excluded then found + [entries[i]] else found)
  {
    assert entries[0..] == entries && found + [] == found;
    if i < |entries| {
      assert entries[i..][1..] == entries[i + 1..] && entries[i..][0] == entries[i];
    }
  }

  /** The least in-flight count is the one that is attained and never undercut. */
  lemma LeastIs(cells: seq<Cell>, cs: seq<nat>, k: nat)
    requires k < |cs| && forall j :: 0 <= j < |cs| ==> cs[j] < |cells|
    requires forall j :: 0 <= j < |cs| ==> cells[cs[k]].inflight <= cells[cs[j]].inflight
    ensures cells[cs[k]].inflight == Least(cells, cs)
  {
  }

  predicate TiesSoFar(cells: seq<Cell>, cs: seq<nat>, least: int, i: nat, found: seq<nat>)
    requires i <= |cs| && forall k :: 0 <= k < |cs| ==> cs[k] < |cells|
  {
    Ties(cells, cs, least) == found + Ties(cells, cs[i..], least)
  }

  lemma TiesNext(cells: seq<Cell>, cs: seq<nat>, least: int, i: nat, found: seq<nat>)
    requires i <= |cs| && forall k :: 0 <= k < |cs| ==> cs[k] < |cells|
    ensures TiesSoFar(cells, cs, least, 0, [])
    ensures TiesSoFar(cells, cs, least, i, found) ==>
              if i == |cs| then Ties(cells, cs, least) == found
              else TiesSoFar(cells, cs, least, i + 1, if cells[cs[i]].inflight == least then found + [cs[i]] else found)
  {
    assert cs[0..] == cs && found + [] == found;
    if i < |cs| {
      assert cs[i..][1..] == cs[i + 1..] && cs[i..][0] == cs[i];
    }
  }

  datatype Choice = Choice(cell: nat, tick: nat)

  /** The policy's pick and the tick it leaves behind. */
  function Pick(policy: Policy, tick: nat, cells: seq<Cell>, cs: seq<nat>): (choice: Choice)
    requires cs != [] && forall k :: 0 <= k < |cs| ==> cs[k] < |cells|
    ensures choice.cell in cs
    ensures policy.LeastInflight? ==> forall k :: 0 <= k < |cs| ==> cells[choice.cell].inflight <= cells[cs[k]].inflight
  {
    match policy
    case RoundRobin => Choice(cs[tick % |cs|], tick + 1)
    case LeastInflight =>
      var ties := Ties(cells, cs, Least(cells, cs));
      if |ties| == 1 then Choice(ties[0], tick) else Choice(ties[tick % |ties|], tick + 1)
  }

  function Select(t: Table, excluded: set<string>): (choice: Option<Choice>)
    requires WellFormed(t)
  {
    var cs := Candidates(t.cells, t.entries, excluded);
    if cs == [] then None else Some(Pick(t.policy, t.tick, t.cells, cs))
  }

  /** A selected replica is routable, healthy and not excluded; there is none only if no replica is. */
  lemma SelectExact(t: Table, excluded: set<string>)
    requires WellFormed(t)
    ensures Select(t, excluded).None? <==>
              forall k :: 0 <= k < |t.entries| ==>
                !t.cells[t.entries[k]].status.Healthy? || t.cells[t.entries[k]].id in excluded
    ensures Select(t, excluded).Some? ==>
              var c := Select(t, excluded).value.cell;
              && c in t.entries && c < |t.cells| && t.cells[c].status.Healthy? && t.cells[c].id !in excluded
              && (t.policy.LeastInflight? ==>
                    forall k :: 0 <= k < |t.entries| && t.cells[t.entries[k]].status.Healthy?
                                && t.cells[t.entries[k]].id !in excluded ==>
                      t.cells[c].inflight <= t.cells[t.entries[k]].inflight)
  {
    var cs := Candidates(t.cells, t.entries, excluded);
    forall c: nat ensures c in cs <==> c in t.entries && t.cells[c].status.Healthy? && t.cells[c].id !in excluded {
      CandidatesExact(t.cells, t.entries, excluded, c);
    }
    hide Candidates, Pick;
    assert forall k :: 0 <= k < |t.entries| ==> t.entries[k] in t.entries;
    assert cs != [] ==> cs[0] in cs;
    if cs != [] {
      var c := Pick(t.policy, t.tick, t.cells, cs).cell;
      assert c in cs;
    }
  }

  // ------------------------------------------------------------------ the books

  function Floor0(n: int): int {
    if n > 0 then n else 0
  }

  function Opened(cell: Cell): Cell {
    cell.(inflight := cell.inflight + 1, requests := cell.requests + 1)
  }

  function Closed(cell: Cell, failed: bool, error: Option<string>): Cell {
    var closed := cell.(inflight := Floor0(cell.inflight - 1));
    if !failed then closed
    else closed.(failures := cell.failures + 1, lastError := if error.Some? then error else cell.lastError)
  }

  /** A new lease on the chosen replica. */
  function Admit(t: Table, choice: Choice): Table
    requires choice.cell < |t.cells|
  {
    t.(cells := t.cells[choice.cell := Opened(t.cells[choice.cell])], tick := choice.tick,
       totalRequests := t.totalRequests + 1)
  }

  /** Move a lease: the abandoned replica is charged, the new one opened. */
  function Move(t: Table, from: nat, choice: Choice, error: Option<string>): Table
    requires from < |t.cells| && choice.cell < |t.cells|
  {
    var charged := t.cells[from := Closed(t.cells[from], true, error)];
    t.(cells := charged[choice.cell := Opened(charged[choice.cell])], tick := choice.tick)
  }

  /** End a lease. */
  function Release(t: Table, c: nat, failed: bool, error: Option<string>): Table
    requires c < |t.cells|
  {
    t.(cells := t.cells[c := Closed(t.cells[c], failed, error)],
       totalErrors := t.totalErrors + (if failed then 1 else 0))
  }
}

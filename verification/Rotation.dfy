/** How the routing policies share requests out over time. */
module Rotation {
  import opened Common
  import opened Routing

  /** The replicas the policy turns among: all candidates, or those with the fewest requests in flight. */
  function Turning(policy: Policy, cells: seq<Cell>, cs: seq<nat>): seq<nat>
    requires cs != [] && forall k :: 0 <= k < |cs| ==> cs[k] < |cells|
  {
    if policy.RoundRobin? then cs else Ties(cells, cs, Least(cells, cs))
  }

  /** The candidates with the fewest requests in flight, in table order. */
  lemma {:induction false} TiesExact(cells: seq<Cell>, cs: seq<nat>, least: int, c: nat)
    requires forall k :: 0 <= k < |cs| ==> cs[k] < |cells|
    ensures c in Ties(cells, cs, least) <==> c in cs && cells[c].inflight == least
    ensures Distinct(cs) ==> Distinct(Ties(cells, cs, least))
    ensures |Ties(cells, cs, least)| <= |cs|
  {
    if cs != [] {
      assert cs == [cs[0]] + cs[1..];
      TiesExact(cells, cs[1..], least, c);
      if Distinct(cs) {
        assert cs[0] !in cs[1..];
        var rest := Ties(cells, cs[1..], least);
        assert forall k :: 0 <= k < |rest| ==> rest[k] in cs[1..];
      }
    }
  }

  /** Each pick is the next of those the policy turns among. */
  lemma PickTurns(policy: Policy, tick: nat, cells: seq<Cell>, cs: seq<nat>)
    requires cs != [] && forall k :: 0 <= k < |cs| ==> cs[k] < |cells|
    ensures Turning(policy, cells, cs) != []
    ensures
      var turning := Turning(policy, cells, cs);
      Pick(policy, tick, cells, cs).cell == turning[tick % |turning|]
    ensures |Turning(policy, cells, cs)| > 1 || policy.RoundRobin? ==> Pick(policy, tick, cells, cs).tick == tick + 1
    ensures Pick(policy, tick, cells, cs).tick <= tick + 1
  {
    var least := Least(cells, cs);
    var k :| 0 <= k < |cs| && cells[cs[k]].inflight == least;
    assert Ties(cells, cs, least) != [];
    var turning := Turning(policy, cells, cs);
    if |turning| == 1 {
      assert tick % 1 == 0;
    }
  }

  /** The replica picked `i` picks after the counter stood at `tick`, the candidates and their loads being the same. */
  function Turn(policy: Policy, tick: nat, cells: seq<Cell>, cs: seq<nat>, i: nat): nat
    requires cs != [] && forall k :: 0 <= k < |cs| ==> cs[k] < |cells|
  {
    Pick(policy, tick + i, cells, cs).cell
  }

  /** With the candidates unchanged, as many picks in a row as there are take each of them exactly once. */
  lemma EachOnce(policy: Policy, tick: nat, cells: seq<Cell>, cs: seq<nat>, c: nat)
    requires cs != [] && Distinct(cs) && forall k :: 0 <= k < |cs| ==> cs[k] < |cells|
    requires c in Turning(policy, cells, cs)
    ensures
      var n := |Turning(policy, cells, cs)|;
      exists i: nat :: i < n && Turn(policy, tick, cells, cs, i) == c
        && forall j: nat :: j < n && Turn(policy, tick, cells, cs, j) == c ==> j == i
  {
    var turning := Turning(policy, cells, cs);
    var n := |turning|;
    if policy.LeastInflight? {
      TiesExact(cells, cs, Least(cells, cs), c);
    }
    assert Distinct(turning);
    forall j: nat | j < n ensures Turn(policy, tick, cells, cs, j) == Taking(turning, tick, j) {
      PickTurns(policy, tick + j, cells, cs);
    }
    hide Turning, Turn, Taking;
    var i := TakenOnce(turning, tick, c);
    assert Turn(policy, tick, cells, cs, i) == c;
  }

  /** Who takes turn `j` when turns are taken in order, from where the counter stands. */
  function Taking(turning: seq<nat>, tick: nat, j: nat): nat
    requires turning != []
  {
    turning[(tick + j) % |turning|]
  }

  lemma TakenOnce(turning: seq<nat>, tick: nat, c: nat) returns (i: nat)
    requires Distinct(turning) && c in turning
    ensures i < |turning| && Taking(turning, tick, i) == c
    ensures forall j: nat :: j < |turning| && Taking(turning, tick, j) == c ==> j == i
  {
    var n := |turning|;
    var k: nat :| k < n && turning[k] == c;
    i := Ahead(tick, n, k);
    assert Taking(turning, tick, i) == c;
    forall j: nat | j < n && Taking(turning, tick, j) == c ensures j == i {
      SameTurn(tick, n, i, j);
    }
  }

  /** How far ahead of `tick` the position `k` comes up next. */
  lemma Ahead(tick: nat, n: nat, k: nat) returns (i: nat)
    requires k < n
    ensures i < n && (tick + i) % n == k
  {
    var at := tick % n;
    i := if k >= at then k - at else k + n - at;
    var q := tick / n;
    assert tick == n * q + at;
    assert n * (q + 1) == n * q + n;
    RemainderIs(tick + i, n, if k >= at then q else q + 1, k);
  }

  lemma RemainderIs(x: nat, n: nat, q: nat, r: nat)
    requires r < n && x == n * q + r
    ensures x % n == r
  {
    OneQuotient(n, q, r, x / n, x % n);
  }

  lemma OneQuotient(n: nat, q: nat, r: nat, d: nat, m: nat)
    requires r < n && m < n && n * q + r == n * d + m
    ensures q == d && r == m
  {
    if q < d {
      MoreOf(n, q, d);
    } else if d < q {
      MoreOf(n, d, q);
    }
  }

  lemma {:induction false} MoreOf(n: nat, a: nat, b: nat)
    requires a < b
    ensures n * b >= n * a + n
    decreases b
  {
    assert n * b == n * (b - 1) + n;
    if a < b - 1 {
      MoreOf(n, a, b - 1);
    }
  }

  lemma SameTurn(tick: nat, n: nat, i: nat, j: nat)
    requires i < n && j < n && (tick + i) % n == (tick + j) % n
    ensures i == j
  {
    var r := (tick + i) % n;
    Apart(n, i, j, (tick + i) / n, (tick + j) / n, tick, r);
  }

  lemma Apart(n: nat, i: nat, j: nat, a: nat, b: nat, tick: nat, r: nat)
    requires i < n && j < n && tick + i == n * a + r && tick + j == n * b + r
    ensures i == j
  {
    if a < b {
      MoreOf(n, a, b);
    } else if b < a {
      MoreOf(n, b, a);
    }
  }
}

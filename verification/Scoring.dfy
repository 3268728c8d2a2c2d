/** Picking an operating point from a load sweep, and the throughput/latency frontier. */
module Scoring {
  import opened Common
  import opened Schemas
  import opened Verifier
  import opened Sorting

  /** Thresholds as fractions: the highest error rate that counts as valid, and the plateau rule. */
  datatype Config = Config(maxErrorRate: real, plateauMinGain: real, plateauLatencyRise: real)

  predicate IsValid(r: Benchmark, cfg: Config) {
    r.successfulRequests != 0 && r.errorRate <= cfg.maxErrorRate
  }

  predicate MeetsSlo(r: Benchmark, slo: Option<LatencyConstraints>) {
    SloViolations(r, slo) == []
  }

  // ------------------------------------------------------------------ the pool of candidates

  function OnlyValid(rs: seq<Benchmark>, cfg: Config): seq<Benchmark> {
    if rs == [] then [] else (if IsValid(rs[0], cfg) then [rs[0]] else []) + OnlyValid(rs[1..], cfg)
  }

  function OnlyMeeting(rs: seq<Benchmark>, slo: Option<LatencyConstraints>): seq<Benchmark> {
    if rs == [] then [] else (if MeetsSlo(rs[0], slo) then [rs[0]] else []) + OnlyMeeting(rs[1..], slo)
  }

  predicate ByConcurrency(a: Benchmark, b: Benchmark) {
    a.concurrency <= b.concurrency
  }

  /** The valid points in order of load. */
  function Points(history: seq<Benchmark>, cfg: Config): seq<Benchmark> {
    Sort(OnlyValid(history, cfg), ByConcurrency)
  }

  /** The points the choice is made from: those that meet the SLO, or all valid ones if none does. */
  function Pool(history: seq<Benchmark>, slo: Option<LatencyConstraints>, cfg: Config): seq<Benchmark> {
    var eligible := OnlyMeeting(Points(history, cfg), slo);
    if eligible != [] then eligible else Points(history, cfg)
  }

  lemma {:induction false} OnlyValidExact(rs: seq<Benchmark>, cfg: Config, r: Benchmark)
    ensures r in OnlyValid(rs, cfg) <==> r in rs && IsValid(r, cfg)
  {
    if rs != [] {
      assert rs == [rs[0]] + rs[1..];
      OnlyValidExact(rs[1..], cfg, r);
    }
  }

  lemma {:induction false} OnlyMeetingExact(rs: seq<Benchmark>, slo: Option<LatencyConstraints>, r: Benchmark)
    ensures r in OnlyMeeting(rs, slo) <==> r in rs && MeetsSlo(r, slo)
  {
    if rs != [] {
      assert rs == [rs[0]] + rs[1..];
      OnlyMeetingExact(rs[1..], slo, r);
    }
  }

  /** The pool holds the valid points that meet the SLO if there are any, and all valid points otherwise. */
  lemma PoolExact(history: seq<Benchmark>, slo: Option<LatencyConstraints>, cfg: Config, r: Benchmark)
    ensures
      var some := exists x :: x in history && IsValid(x, cfg) && MeetsSlo(x, slo);
      r in Pool(history, slo, cfg) <==> r in history && IsValid(r, cfg) && (some ==> MeetsSlo(r, slo))
  {
    var points := Points(history, cfg);
    SortPermutes(OnlyValid(history, cfg), ByConcurrency);
    forall x ensures x in points <==> x in history && IsValid(x, cfg) {
      OnlyValidExact(history, cfg, x);
    }
    forall x ensures x in OnlyMeeting(points, slo) <==> x in points && MeetsSlo(x, slo) {
      OnlyMeetingExact(points, slo, x);
    }
    var eligible := OnlyMeeting(points, slo);
    assert eligible != [] ==> eligible[0] in eligible;
    hide Points, OnlyMeeting, MeetsSlo, IsValid;
  }

  lemma {:induction false} FilteredOrder(rs: seq<Benchmark>, slo: Option<LatencyConstraints>)
    requires SortedBy(ByConcurrency, rs)
    ensures SortedBy(ByConcurrency, OnlyMeeting(rs, slo))
  {
    if rs != [] {
      FilteredOrder(rs[1..], slo);
      var rest := OnlyMeeting(rs[1..], slo);
      forall k | 0 <= k < |rest| ensures rs[0].concurrency <= rest[k].concurrency {
        OnlyMeetingExact(rs[1..], slo, rest[k]);
        var j :| 0 <= j < |rs[1..]| && rs[1..][j] == rest[k];
        assert ByConcurrency(rs[0], rs[j + 1]);
      }
      hide MeetsSlo;
    }
  }

  lemma PoolOrder(history: seq<Benchmark>, slo: Option<LatencyConstraints>, cfg: Config)
    ensures SortedBy(ByConcurrency, Pool(history, slo, cfg))
  {
    SortOrders(OnlyValid(history, cfg), ByConcurrency);
    FilteredOrder(Points(history, cfg), slo);
  }

  // ------------------------------------------------------------------ the plateau walk

  function Gain(next: Benchmark, current: Benchmark): real {
    (next.tps - current.tps) / RMax(current.tps, TPS_FLOOR)
  }

  function Rise(next: Benchmark, current: Benchmark): real {
    (next.latencyP95 - current.latencyP95) / RMax(current.latencyP95, TPS_FLOOR)
  }

  /** Whether the walk moves on to a point of higher load. */
  predicate WorthIt(next: Benchmark, current: Benchmark, cfg: Config) {
    Gain(next, current) > 0.0 && !(Gain(next, current) < cfg.plateauMinGain && Rise(next, current) > cfg.plateauLatencyRise)
  }

  /** Where the walk stands after the first `n` points. */
  function Walk(pool: seq<Benchmark>, n: nat, cfg: Config): Benchmark
    requires 1 <= n <= |pool|
  {
    if n == 1 then pool[0]
    else
      var current := Walk(pool, n - 1, cfg);
      if WorthIt(pool[n - 1], current, cfg) then pool[n - 1] else current
  }

  /** What the plateau rule may give up against a point of the given throughput. */
  function Allowance(tps: real, cfg: Config): real {
    tps + cfg.plateauMinGain * RMax(tps, TPS_FLOOR)
  }

  lemma ScaleUp(a: real, b: real, factor: real)
    requires a <= b && factor >= 0.0
    ensures factor * a <= factor * b
  {
    assert factor * (b - a) >= 0.0;
  }

  lemma AllowanceMonotone(a: real, b: real, cfg: Config)
    requires a <= b && cfg.plateauMinGain >= 0.0
    ensures a <= Allowance(a, cfg) <= Allowance(b, cfg)
  {
    ScaleUp(0.0, RMax(a, TPS_FLOOR), cfg.plateauMinGain);
    ScaleUp(RMax(a, TPS_FLOOR), RMax(b, TPS_FLOOR), cfg.plateauMinGain);
  }

  lemma Divided(x: real, d: real, bound: real)
    requires d > 0.0
    ensures x / d > bound <==> x > bound * d
    ensures x / d < bound <==> x < bound * d
  {
    var q := x / d;
    assert q * d == x;
    if q > bound {
      assert (q - bound) * d > 0.0;
    } else if q < bound {
      assert (bound - q) * d > 0.0;
    }
  }

  /** A point is passed over only if it is no better, or better by less than the allowance. */
  lemma StepLoss(next: Benchmark, current: Benchmark, cfg: Config)
    requires cfg.plateauMinGain >= 0.0
    ensures WorthIt(next, current, cfg) ==> next.tps > current.tps
    ensures !WorthIt(next, current, cfg) ==> next.tps <= Allowance(current.tps, cfg)
  {
    var d := RMax(current.tps, TPS_FLOOR);
    Divided(next.tps - current.tps, d, 0.0);
    Divided(next.tps - current.tps, d, cfg.plateauMinGain);
    AllowanceMonotone(current.tps, current.tps, cfg);
  }

  /** No point seen so far beats the chosen one by more than the allowance, and throughput only ever rose. */
  lemma {:induction false} PlateauLoss(pool: seq<Benchmark>, n: nat, cfg: Config)
    requires 1 <= n <= |pool| && cfg.plateauMinGain >= 0.0
    ensures Walk(pool, n, cfg) in pool[..n] && pool[0].tps <= Walk(pool, n, cfg).tps
    ensures forall k :: 0 <= k < n ==> pool[k].tps <= Allowance(Walk(pool, n, cfg).tps, cfg)
  {
    hide Allowance;
    if n == 1 {
      AllowanceMonotone(pool[0].tps, pool[0].tps, cfg);
    } else {
      PlateauLoss(pool, n - 1, cfg);
      var current, next := Walk(pool, n - 1, cfg), pool[n - 1];
      StepLoss(next, current, cfg);
      hide WorthIt;
      AllowanceMonotone(next.tps, next.tps, cfg);
      if WorthIt(next, current, cfg) {
        AllowanceMonotone(current.tps, next.tps, cfg);
      }
      assert pool[..n] == pool[..n - 1] + [next];
    }
  }

  // ------------------------------------------------------------------ the choice

  /** The first point of lowest p95 latency. */
  function Quickest(pool: seq<Benchmark>): (r: Benchmark)
    requires pool != []
    ensures r in pool && forall k :: 0 <= k < |pool| ==> r.latencyP95 <= pool[k].latencyP95
  {
    var n := |pool| - 1;
    if n == 0 then pool[0]
    else
      var r := Quickest(pool[..n]);
      assert forall k :: 0 <= k < n ==> pool[k] == pool[..n][k];
      if pool[n].latencyP95 < r.latencyP95 then pool[n] else r
  }

  /** The first point of highest load. */
  function Busiest(pool: seq<Benchmark>): (r: Benchmark)
    requires pool != []
    ensures r in pool && forall k :: 0 <= k < |pool| ==> pool[k].concurrency <= r.concurrency
  {
    var n := |pool| - 1;
    if n == 0 then pool[0]
    else
      var r := Busiest(pool[..n]);
      assert forall k :: 0 <= k < n ==> pool[k] == pool[..n][k];
      if pool[n].concurrency > r.concurrency then pool[n] else r
  }

  predicate Bounded(slo: Option<LatencyConstraints>) {
    slo.Some? && !slo.value.IsEmpty()
  }

  function Chosen(history: seq<Benchmark>, objective: Objective, slo: Option<LatencyConstraints>, cfg: Config): Option<Benchmark> {
    var pool := Pool(history, slo, cfg);
    if pool == [] then None
    else if !objective.Latency? then Some(Walk(pool, |pool|, cfg))
    else if Bounded(slo) && OnlyMeeting(Points(history, cfg), slo) != [] then Some(Busiest(pool))
    else Some(Quickest(pool))
  }

  /** The eligible points: valid, and meeting the SLO if any valid point does. */
  ghost predicate Eligible(history: seq<Benchmark>, slo: Option<LatencyConstraints>, cfg: Config, r: Benchmark) {
    && r in history && IsValid(r, cfg)
    && ((exists x :: x in history && IsValid(x, cfg) && MeetsSlo(x, slo)) ==> MeetsSlo(r, slo))
  }

  /** Raising the load from the lightest eligible point never costs throughput. */
  lemma NoWorseThanLightest(history: seq<Benchmark>, objective: Objective, slo: Option<LatencyConstraints>, cfg: Config, lightest: Benchmark)
    requires cfg.plateauMinGain >= 0.0 && !objective.Latency? && Eligible(history, slo, cfg, lightest)
    requires forall x :: Eligible(history, slo, cfg, x) && x != lightest ==> lightest.concurrency < x.concurrency
    ensures
      var c := Chosen(history, objective, slo, cfg);
      c.Some? && lightest.tps <= c.value.tps && lightest.concurrency <= c.value.concurrency
  {
    var pool := Pool(history, slo, cfg);
    forall r ensures r in pool <==> Eligible(history, slo, cfg, r) {
      PoolExact(history, slo, cfg, r);
    }
    PoolOrder(history, slo, cfg);
    hide Pool, Eligible, Walk;
    var k :| 0 <= k < |pool| && pool[k] == lightest;
    assert pool[0] in pool;
    assert k > 0 ==> ByConcurrency(pool[0], pool[k]);
    PlateauLoss(pool, |pool|, cfg);
    assert pool[..|pool|] == pool;
  }

  /**
   * The chosen operating point is valid, and meets the SLO if any valid point does; there is none
   * exactly when no point is valid. Under a throughput objective no point that was eligible beats it
   * by more than the plateau allowance.
   */
  lemma ChoiceSound(history: seq<Benchmark>, objective: Objective, slo: Option<LatencyConstraints>, cfg: Config)
    requires cfg.plateauMinGain >= 0.0
    ensures Chosen(history, objective, slo, cfg).None? <==> forall x :: x in history ==> !IsValid(x, cfg)
    ensures
      Chosen(history, objective, slo, cfg).Some? ==>
        var c := Chosen(history, objective, slo, cfg).value;
        var some := exists x :: x in history && IsValid(x, cfg) && MeetsSlo(x, slo);
        && c in history && IsValid(c, cfg) && (some ==> MeetsSlo(c, slo))
        && (!objective.Latency? ==>
              forall x :: x in history && IsValid(x, cfg) && (some ==> MeetsSlo(x, slo)) ==>
                x.tps <= Allowance(c.tps, cfg))
  {
    var pool := Pool(history, slo, cfg);
    forall r ensures
               var some := exists x :: x in history && IsValid(x, cfg) && MeetsSlo(x, slo);
               r in pool <==> r in history && IsValid(r, cfg) && (some ==> MeetsSlo(r, slo))
    {
      PoolExact(history, slo, cfg, r);
    }
    hide Pool, MeetsSlo, IsValid, Allowance, Walk;
    assert pool != [] ==> pool[0] in pool;
    if pool != [] {
      PlateauLoss(pool, |pool|, cfg);
      assert pool[..|pool|] == pool;
    }
  }

  /** Under a latency SLO that some valid point meets, the choice is the highest load that meets it. */
  lemma LatencyChoice(history: seq<Benchmark>, slo: Option<LatencyConstraints>, cfg: Config, x: Benchmark)
    requires x in history && IsValid(x, cfg) && MeetsSlo(x, slo)
    ensures
      var c := Chosen(history, Latency, slo, cfg);
      && c.Some?
      && (if Bounded(slo) then x.concurrency <= c.value.concurrency else c.value.latencyP95 <= x.latencyP95)
  {
    PoolExact(history, slo, cfg, x);
    SortPermutes(OnlyValid(history, cfg), ByConcurrency);
    OnlyValidExact(history, cfg, x);
    OnlyMeetingExact(Points(history, cfg), slo, x);
    hide MeetsSlo, IsValid;
  }

  method ChooseConcurrency(history: seq<Benchmark>, objective: Objective, slo: Option<LatencyConstraints>, cfg: Config)
    returns (choice: Option<Benchmark>)
    ensures choice == Chosen(history, objective, slo, cfg)
  {
    var points := Points(history, cfg);
    if points == [] {
      PoolOfNothing(history, slo, cfg);
      return None;
    }
    var eligible := OnlyMeeting(points, slo);
    var pool := if eligible != [] then eligible else points;
    hide Points, OnlyMeeting, Walk, Quickest, Busiest;
    if objective.Latency? {
      if eligible != [] && Bounded(slo) {
        return Some(Busiest(eligible));
      }
      return Some(Quickest(pool));
    }
    var walked := WalkUp(pool, cfg);
    return Some(walked);
  }

  /** Walk upward in load, moving on only where it is worth it. */
  method WalkUp(pool: seq<Benchmark>, cfg: Config) returns (current: Benchmark)
    requires pool != []
    ensures current == Walk(pool, |pool|, cfg)
  {
    current := pool[0];
    hide Gain, Rise;
    for i := 1 to |pool|
      invariant current == Walk(pool, i, cfg)
    {
      var next := pool[i];
      var gain := Gain(next, current);
      var rise := Rise(next, current);
      if gain <= 0.0 {
        continue;
      }
      if gain < cfg.plateauMinGain && rise > cfg.plateauLatencyRise {
        continue;
      }
      current := next;
    }
  }

  lemma PoolOfNothing(history: seq<Benchmark>, slo: Option<LatencyConstraints>, cfg: Config)
    requires Points(history, cfg) == []
    ensures Pool(history, slo, cfg) == []
  {
  }

  // ------------------------------------------------------------------ the frontier

  datatype Point = Point(tps: real, latency: real, onFront: bool)

  predicate Dominates(q: Point, p: Point) {
    q.tps >= p.tps && q.latency <= p.latency && (q.tps > p.tps || q.latency < p.latency)
  }

  /** The measurements with any success, as points not yet placed. */
  function Plotted(results: seq<Benchmark>): seq<Point> {
    if results == [] then []
    else
      var r, rest := results[0], Plotted(results[1..]);
      if r.successfulRequests > 0 then [Point(r.tps, r.latencyP95, false)] + rest else rest
  }

  predicate Dominated(points: seq<Point>, p: Point) {
    exists k :: 0 <= k < |points| && Dominates(points[k], p)
  }

  /** By latency, then by falling throughput. */
  predicate FrontOrder(a: Point, b: Point) {
    a.latency < b.latency || (a.latency == b.latency && a.tps >= b.tps)
  }

  function Marked(points: seq<Point>): (marked: seq<Point>)
    ensures |marked| == |points|
  {
    seq(|points|, i requires 0 <= i < |points| => points[i].(onFront := !Dominated(points, points[i])))
  }

  function Front(results: seq<Benchmark>): seq<Point> {
    Sort(Marked(Plotted(results)), FrontOrder)
  }

  /** A point's own mark does not matter to dominance. */
  lemma MarksDoNotMatter(points: seq<Point>, p: Point)
    ensures Dominated(Marked(points), p) <==> Dominated(points, p)
  {
    var marked := Marked(points);
    forall k | 0 <= k < |points| ensures Dominates(marked[k], p) == Dominates(points[k], p) {
    }
  }

  /** In the returned list, a point is on the front exactly when no point of the list dominates it. */
  lemma FrontExact(results: seq<Benchmark>, i: nat)
    requires i < |Front(results)|
    ensures Front(results)[i].onFront <==> !Dominated(Front(results), Front(results)[i])
  {
    var points := Plotted(results);
    var marked, front := Marked(points), Front(results);
    SortPermutes(marked, FrontOrder);
    var p := front[i];
    assert p in marked;
    var m :| 0 <= m < |marked| && marked[m] == p;
    assert p.onFront == !Dominated(points, points[m]);
    assert Dominated(points, p) == Dominated(points, points[m]) by {
      assert forall k :: 0 <= k < |points| ==> Dominates(points[k], p) == Dominates(points[k], points[m]);
    }
    MarksDoNotMatter(points, p);
    SameDominated(marked, front, p);
  }

  lemma SameDominated(a: seq<Point>, b: seq<Point>, p: Point)
    requires forall x :: x in a <==> x in b
    ensures Dominated(a, p) <==> Dominated(b, p)
  {
    if Dominated(a, p) {
      var k :| 0 <= k < |a| && Dominates(a[k], p);
      assert a[k] in b;
    }
    if Dominated(b, p) {
      var k :| 0 <= k < |b| && Dominates(b[k], p);
      assert b[k] in a;
    }
  }

  function Dominators(points: seq<Point>, p: Point): set<nat> {
    set k: nat | k < |points| && Dominates(points[k], p)
  }

  /** Every point of a list is undominated or dominated by an undominated one. */
  lemma {:induction false} UndominatedAbove(points: seq<Point>, i: nat) returns (k: nat)
    requires i < |points|
    ensures k < |points| && !Dominated(points, points[k]) && (k == i || Dominates(points[k], points[i]))
    decreases |Dominators(points, points[i])|
  {
    k := i;
    if Dominated(points, points[i]) {
      var j: nat :| j < |points| && Dominates(points[j], points[i]);
      assert Dominators(points, points[j]) <= Dominators(points, points[i]);
      assert j in Dominators(points, points[i]) && j !in Dominators(points, points[j]);
      SmallerCardinality(Dominators(points, points[j]), Dominators(points, points[i]), j);
      k := UndominatedAbove(points, j);
    }
  }

  lemma SmallerCardinality(a: set<nat>, b: set<nat>, x: nat)
    requires a <= b && x in b && x !in a
    ensures |a| < |b|
  {
    SubsetCardinality(a, b - {x});
  }

  /** Every point off the front is dominated by one on it; so the front is never empty when there are points. */
  lemma FrontCovers(results: seq<Benchmark>, i: nat) returns (k: nat)
    requires i < |Front(results)|
    ensures k < |Front(results)| && Front(results)[k].onFront
    ensures !Front(results)[i].onFront ==> Dominates(Front(results)[k], Front(results)[i])
  {
    k := UndominatedAbove(Front(results), i);
    FrontExact(results, k);
    FrontExact(results, i);
  }

  /** Along the returned order, throughput on the front never falls as latency rises. */
  lemma FrontRises(results: seq<Benchmark>, i: nat, j: nat)
    requires i < j < |Front(results)| && Front(results)[i].onFront && Front(results)[j].onFront
    ensures Front(results)[i].latency <= Front(results)[j].latency && Front(results)[i].tps <= Front(results)[j].tps
  {
    var front := Front(results);
    SortOrders(Marked(Plotted(results)), FrontOrder);
    assert FrontOrder(front[i], front[j]);
    FrontExact(results, j);
    assert !Dominates(front[i], front[j]);
  }

  method ParetoFront(results: seq<Benchmark>) returns (front: seq<Point>)
    ensures front == Front(results)
  {
    var points, marked := Plotted(results), [];
    for i := 0 to |points|
      invariant |marked| == i && forall k :: 0 <= k < i ==> marked[k] == Marked(points)[k]
    {
      var dominated := false;
      for j := 0 to |points|
        invariant dominated == exists k :: 0 <= k < j && Dominates(points[k], points[i])
      {
        if j != i && Dominates(points[j], points[i]) {
          dominated := true;
          assert Dominated(points, points[i]);
          break;
        }
      }
      assert dominated == Dominated(points, points[i]);
      marked := marked + [points[i].(onFront := !dominated)];
    }
    assert marked == Marked(points);
    front := Sort(marked, FrontOrder);
  }
}

/** What the chosen operating point and the frontier mean in the measurements themselves. */
module OperatingPoint {
  import opened Common
  import opened Sorting
  import opened Schemas
  import opened Verifier
  import opened Objectives
  import opened Scoring

  // ------------------------------------------------------------------ eligible points

  predicate WithinSlo(r: Benchmark, slo: Option<LatencyConstraints>) {
    slo.Some? ==>
      && Within(r.ttftP95, slo.value.maxTtft)
      && Within(Some(r.latencyP95), slo.value.maxLatency)
      && Within(r.tpotP95, slo.value.maxTpot)
  }

  lemma MeetsMeans(r: Benchmark, slo: Option<LatencyConstraints>)
    ensures MeetsSlo(r, slo) <==> WithinSlo(r, slo)
  {
  }

  /** Some request succeeded, and no more failed than allowed. */
  predicate Usable(r: Benchmark, cfg: Config) {
    r.successfulRequests != 0 && r.errorRate <= cfg.maxErrorRate
  }

  /** Usable, and within the SLO if any usable point is. */
  ghost predicate Open(history: seq<Benchmark>, slo: Option<LatencyConstraints>, cfg: Config, r: Benchmark) {
    && r in history && Usable(r, cfg)
    && ((exists x :: x in history && Usable(x, cfg) && WithinSlo(x, slo)) ==> WithinSlo(r, slo))
  }

  lemma PoolMeans(history: seq<Benchmark>, slo: Option<LatencyConstraints>, cfg: Config, r: Benchmark)
    ensures r in Pool(history, slo, cfg) <==> Open(history, slo, cfg, r)
  {
    PoolExact(history, slo, cfg, r);
    forall x: Benchmark ensures MeetsSlo(x, slo) <==> WithinSlo(x, slo) {
      MeetsMeans(x, slo);
    }
    hide Pool, MeetsSlo, WithinSlo;
  }

  /** There is a choice if and only if some point is usable, and it is one of the open points. */
  lemma ChoiceOpen(history: seq<Benchmark>, objective: Objective, slo: Option<LatencyConstraints>, cfg: Config)
    ensures Chosen(history, objective, slo, cfg).Some? <==> exists r :: r in history && Usable(r, cfg)
    ensures Chosen(history, objective, slo, cfg).Some? ==> Open(history, slo, cfg, Chosen(history, objective, slo, cfg).value)
  {
    var pool := Pool(history, slo, cfg);
    forall r ensures r in pool <==> Open(history, slo, cfg, r) {
      PoolMeans(history, slo, cfg, r);
    }
    if r :| r in history && Usable(r, cfg) {
      if x :| x in history && Usable(x, cfg) && WithinSlo(x, slo) {
        assert x in pool;
      } else {
        assert r in pool;
      }
    }
    if pool != [] {
      assert pool[0] in pool;
      WalkStops(pool, |pool|, cfg);
      hide Walk, Pool, Quickest, Busiest, WithinSlo;
    }
  }

  // ------------------------------------------------------------------ the plateau rule

  function Base(x: real): real {
    if x >= 0.000000001 then x else 0.000000001
  }

  /**
   * A heavier load is passed over exactly when it has no more throughput, or has too little more and
   * its p95 latency is too much higher, both measured against the point it is compared with.
   */
  lemma PassedOver(next: Benchmark, current: Benchmark, cfg: Config)
    ensures !WorthIt(next, current, cfg) <==>
              || next.tps <= current.tps
              || (&& next.tps - current.tps < cfg.plateauMinGain * Base(current.tps)
                  && next.latencyP95 - current.latencyP95 > cfg.plateauLatencyRise * Base(current.latencyP95))
  {
    Divided(next.tps - current.tps, Base(current.tps), 0.0);
    Divided(next.tps - current.tps, Base(current.tps), cfg.plateauMinGain);
    Divided(next.latencyP95 - current.latencyP95, Base(current.latencyP95), cfg.plateauLatencyRise);
  }

  /** Where the walk ends, no heavier load is worth moving to; and it was worth moving there from where the walk stood. */
  lemma {:induction false} WalkStops(pool: seq<Benchmark>, n: nat, cfg: Config)
    requires 1 <= n <= |pool|
    ensures exists j :: StopsAt(pool, n, cfg, j)
    ensures Walk(pool, n, cfg) in pool
  {
    if n == 1 {
      assert StopsAt(pool, 1, cfg, 0);
    } else {
      WalkStops(pool, n - 1, cfg);
      hide WorthIt;
      if WorthIt(pool[n - 1], Walk(pool, n - 1, cfg), cfg) {
        assert StopsAt(pool, n, cfg, n - 1);
      } else {
        var j :| StopsAt(pool, n - 1, cfg, j);
        assert StopsAt(pool, n, cfg, j);
      }
    }
  }

  ghost predicate StopsAt(pool: seq<Benchmark>, n: nat, cfg: Config, j: int)
    requires 1 <= n <= |pool|
  {
    && 0 <= j < n && Walk(pool, n, cfg) == pool[j]
    && (forall k :: j < k < n ==> !WorthIt(pool[k], pool[j], cfg))
    && (j > 0 ==> WorthIt(pool[j], Walk(pool, j, cfg), cfg))
  }

  // ------------------------------------------------------------------ the frontier

  predicate Beats(q: Benchmark, tps: real, latency: real) {
    q.tps >= tps && q.latencyP95 <= latency && (q.tps > tps || q.latencyP95 < latency)
  }

  lemma {:induction false} PlottedMeans(results: seq<Benchmark>, p: Point)
    ensures p in Plotted(results) <==>
              !p.onFront && exists r :: r in results && r.successfulRequests > 0 && r.tps == p.tps && r.latencyP95 == p.latency
  {
    if results != [] {
      PlottedMeans(results[1..], p);
      assert results == [results[0]] + results[1..];
    }
  }

  lemma DominatedMeans(results: seq<Benchmark>, p: Point)
    ensures Dominated(Plotted(results), p) <==>
              exists r :: r in results && r.successfulRequests > 0 && Beats(r, p.tps, p.latency)
  {
    var points := Plotted(results);
    if k :| 0 <= k < |points| && Dominates(points[k], p) {
      PlottedMeans(results, points[k]);
    }
    if r :| r in results && r.successfulRequests > 0 && Beats(r, p.tps, p.latency) {
      var q := Point(r.tps, r.latencyP95, false);
      PlottedMeans(results, q);
      var k :| 0 <= k < |points| && points[k] == q;
      assert Dominates(points[k], p);
    }
    hide Plotted;
  }

  /**
   * The frontier lists every measurement with a success, as its throughput and p95 latency, and marks
   * exactly those that no other beats on one and matches or beats on the other.
   */
  lemma FrontMeans(results: seq<Benchmark>, tps: real, latency: real, onFront: bool)
    ensures Point(tps, latency, onFront) in Front(results) <==>
              && (exists r :: r in results && r.successfulRequests > 0 && r.tps == tps && r.latencyP95 == latency)
              && (onFront <==> forall r :: r in results && r.successfulRequests > 0 ==> !Beats(r, tps, latency))
  {
    var points, p := Plotted(results), Point(tps, latency, onFront);
    var plain := p.(onFront := false);
    SortPermutes(Marked(points), FrontOrder);
    PlottedMeans(results, plain);
    DominatedMeans(results, plain);
    forall q | q in points ensures !q.onFront {
      PlottedMeans(results, q);
    }
    hide Plotted, Beats;
    MarkedMeans(points, p);
    assert Dominated(points, p) <==> Dominated(points, plain) by {
      assert forall k :: 0 <= k < |points| ==> Dominates(points[k], p) == Dominates(points[k], plain);
    }
  }

  lemma MarkedMeans(points: seq<Point>, p: Point)
    requires forall q :: q in points ==> !q.onFront
    ensures p in Marked(points) <==> p.(onFront := false) in points && (p.onFront <==> !Dominated(points, p.(onFront := false)))
  {
    var marked := Marked(points);
    if p in marked {
      var k :| 0 <= k < |marked| && marked[k] == p;
      assert points[k] in points && points[k] == p.(onFront := false);
    }
    if p.(onFront := false) in points {
      var k :| 0 <= k < |points| && points[k] == p.(onFront := false);
      assert marked[k] == points[k].(onFront := !Dominated(points, points[k]));
      assert marked[k] in marked;
    }
    hide Dominated;
  }
}

/** What the memory model's figures mean: the reserve, the computed fraction, and each part of the estimate. */
module Budget {
  import opened Common
  import opened Hardware
  import opened Memory

  /** `n` is `x` rounded down. */
  predicate WholePart(n: int, x: real) {
    n as real <= x < n as real + 1.0
  }

  // ------------------------------------------------------------------ the reserve and the fraction

  /** The fraction leaves the reserve: what it claims and the reserve are together no more than is free. */
  ghost predicate LeavesReserve(fraction: real, total: nat, free: nat, cfg: MemoryConfig) {
    fraction * total as real + Reserve(total, cfg) as real <= free as real
  }

  /**
   * The computed fraction is zero or leaves the reserve, never exceeds the configured maximum, and no
   * larger number of hundredths up to that maximum would leave it.
   */
  lemma FractionLargest(total: nat, free: nat, cfg: MemoryConfig, hundredths: nat)
    requires total > 0 && cfg.maxFraction >= 0.0
    ensures
      var fraction := ComputeFraction(total, free, cfg);
      && 0.0 <= fraction <= cfg.maxFraction
      && (fraction > 0.0 ==> LeavesReserve(fraction, total, free, cfg))
      && (hundredths as real / 100.0 <= cfg.maxFraction && LeavesReserve(hundredths as real / 100.0, total, free, cfg) ==>
            hundredths as real / 100.0 <= fraction)
  {
    var budget := free as int - Reserve(total, cfg);
    var fraction := ComputeFraction(total, free, cfg);
    var h := hundredths as real / 100.0;
    if fraction > 0.0 {
      ComputedBelow(total, free, cfg);
      LeavesIff(fraction, budget as real, total as real);
    }
    if h <= cfg.maxFraction && LeavesReserve(h, total, free, cfg) {
      LeavesIff(h, budget as real, total as real);
      HundredthsUnder(hundredths, budget as real / total as real);
    }
    hide Reserve;
  }

  lemma LeavesIff(f: real, budget: real, total: real)
    requires total > 0.0
    ensures f * total <= budget <==> f <= budget / total
  {
    var q := budget / total;
    assert q * total == budget;
    if f <= q {
      ProductOrder(f, q, total);
    } else {
      assert (f - q) * total > 0.0;
    }
  }

  lemma HundredthsUnder(n: nat, q: real)
    requires n as real / 100.0 <= q
    ensures n as real / 100.0 <= (q * 100.0).Floor as real / 100.0
  {
    assert n as real <= q * 100.0;
    assert n <= (q * 100.0).Floor;
  }

  // ------------------------------------------------------------------ the estimate, part by part

  /** `least` is the smallest size of the group, none being negative. */
  predicate LeastOf(sizes: seq<int>, least: nat) {
    && (exists k :: 0 <= k < |sizes| && sizes[k] == least)
    && forall k :: 0 <= k < |sizes| ==> least <= sizes[k]
  }

  function Totals(gpus: seq<Gpu>): seq<int> {
    seq(|gpus|, i requires 0 <= i < |gpus| => gpus[i].total)
  }

  function Frees(gpus: seq<Gpu>): seq<int> {
    seq(|gpus|, i requires 0 <= i < |gpus| => gpus[i].free)
  }

  lemma {:induction false} LeastTotalExact(gpus: seq<Gpu>)
    requires gpus != [] && Sized(gpus)
    ensures LeastTotal(gpus) >= 0 && LeastOf(Totals(gpus), LeastTotal(gpus))
  {
    assert gpus[0] in gpus && Totals(gpus)[0] == gpus[0].total;
    if |gpus| > 1 {
      assert forall k :: 0 <= k < |gpus[1..]| ==> gpus[1..][k] in gpus;
      LeastTotalExact(gpus[1..]);
      var k :| 0 <= k < |gpus[1..]| && Totals(gpus[1..])[k] == LeastTotal(gpus[1..]);
      assert Totals(gpus)[k + 1] == LeastTotal(gpus[1..]);
      forall j | 0 <= j < |gpus| ensures LeastTotal(gpus) <= Totals(gpus)[j] {
        if j > 0 {
          assert Totals(gpus)[j] == Totals(gpus[1..])[j - 1];
        }
      }
    }
  }

  lemma {:induction false} LeastFreeExact(gpus: seq<Gpu>)
    requires gpus != [] && Sized(gpus)
    ensures LeastFree(gpus) >= 0 && LeastOf(Frees(gpus), LeastFree(gpus))
  {
    var least := LeastFree(gpus);
    var g :| g in gpus && g.free == least;
    var k :| 0 <= k < |gpus| && gpus[k] == g;
    assert Frees(gpus)[k] == LeastFree(gpus);
    forall j | 0 <= j < |gpus| ensures LeastFree(gpus) <= Frees(gpus)[j] {
      assert gpus[j] in gpus;
    }
  }

  /** A fraction of a size, in whole bytes. */
  predicate ShareOf(share: int, fraction: real, total: nat) {
    WholePart(share, fraction * total as real)
  }

  /** The weights of one shard: all of them, or their share of them with the sharding overhead on top. */
  predicate ShardOf(shard: int, weights: nat, shards: nat, cfg: MemoryConfig) {
    if shards <= 1 then shard == weights
    else shard as real * shards as real <= weights as real * (1.0 + cfg.shardOverhead) < (shard as real + 1.0) * shards as real
  }

  lemma ShardExact(weights: nat, shards: nat, cfg: MemoryConfig)
    ensures ShardOf(ShardedWeights(weights, shards, cfg), weights, shards, cfg)
  {
    if shards > 1 {
      ShareScaled(ShardedWeights(weights, shards, cfg), weights as real, shards as real, 1.0 + cfg.shardOverhead);
    }
  }

  lemma ShareScaled(share: int, w: real, n: real, f: real)
    requires n > 0.0 && WholePart(share, w / n * f)
    ensures share as real * n <= w * f < (share as real + 1.0) * n
  {
    var x, a := w / n * f, share as real;
    QuotientScaled(w, n, f);
    Scaled(a, x, a + 1.0, n, w * f);
  }

  lemma QuotientScaled(w: real, n: real, f: real)
    requires n > 0.0
    ensures w / n * f * n == w * f
  {
    var q := w / n;
    assert q * n == w;
    assert q * f * n == q * n * f;
  }

  lemma Scaled(a: real, b: real, c: real, n: real, product: real)
    requires a <= b < c && n > 0.0 && b * n == product
    ensures a * n <= product < c * n
  {
    ProductOrder(a, b, n);
    assert c * n - b * n == (c - b) * n > 0.0;
  }

  /** Cache per token of one pipeline stage, at least one byte. */
  predicate StageCache(perToken: Option<nat>, kv: Option<nat>, pp: nat) {
    if kv.None? then perToken.None?
    else
      && perToken.Some?
      && if pp <= 1 then perToken == kv
         else perToken.value >= 1 && (perToken.value == 1 || perToken.value * pp <= kv.value) && kv.value < (perToken.value + 1) * pp
  }

  lemma StageCacheExact(kv: Option<nat>, pp: nat)
    ensures StageCache(if kv.Some? && pp > 1 then Some(if kv.value / pp > 1 then kv.value / pp else 1) else kv, kv, pp)
  {
    if kv.Some? && pp > 1 {
      var q := kv.value / pp;
      assert kv.value == q * pp + kv.value % pp;
      if q <= 1 {
        assert q * pp <= pp;
      } else {
        assert (q + 1) * pp == q * pp + pp;
      }
    }
  }

  /**
   * The figures of an estimate: sizes are the group's smallest, the budget is the fraction's share of
   * the total, and what the budget leaves for the cache after weights, activations, graphs,
   * communication buffers and the engine's own overhead.
   */
  lemma EstimateExact(
      weightBytes: Option<nat>, gpus: seq<Gpu>, tp: nat, pp: nat, kv: Option<nat>, context: nat, lengths: Lengths,
      cfg: MemoryConfig, forced: Option<real>)
    requires gpus != [] && Sized(gpus)
    ensures
      var e := EstimateMemory(weightBytes, gpus, tp, pp, kv, context, lengths, cfg, forced);
      var fraction := if forced.Some? then forced.value else ComputeFraction(e.total, e.free, cfg);
      && LeastOf(Totals(gpus), e.total) && LeastOf(Frees(gpus), e.free)
      && ShareOf(e.budget, fraction, e.total) && ShareOf(e.activations, cfg.activation, e.total)
      && e.weights.Some? == weightBytes.Some?
      && (weightBytes.Some? ==> ShardOf(e.weights.value, weightBytes.value, tp * pp, cfg))
      && StageCache(e.kvPerToken, kv, pp)
      && e.budget == e.kvAvailable + (if e.weights.Some? then e.weights.value else 0)
                     + e.activations + cfg.graphs + (if tp > 1 then cfg.comm else 0) + cfg.overhead
  {
    hide EstimateMemory, ComputeFraction, ShardedWeights, LeastTotal, LeastFree, LeastOf, StageCache, ShardOf, Share, ShareOf;
    LeastTotalExact(gpus);
    LeastFreeExact(gpus);
    var total := LeastTotal(gpus);
    ShareWhole(FractionFor(gpus, cfg, forced), total);
    ShareWhole(cfg.activation, total);
    if weightBytes.Some? {
      ShardExact(weightBytes.value, tp * pp, cfg);
    }
    StageCacheExact(kv, pp);
    EstimateParts(weightBytes, gpus, tp, pp, kv, context, lengths, cfg, forced);
  }

  lemma ShareWhole(fraction: real, total: nat)
    ensures ShareOf(Share(fraction, total), fraction, total)
  {
  }

  lemma EstimateParts(
      weightBytes: Option<nat>, gpus: seq<Gpu>, tp: nat, pp: nat, kv: Option<nat>, context: nat, lengths: Lengths,
      cfg: MemoryConfig, forced: Option<real>)
    requires gpus != []
    ensures
      var e := EstimateMemory(weightBytes, gpus, tp, pp, kv, context, lengths, cfg, forced);
      && e.total == AtLeast0(LeastTotal(gpus)) && e.free == AtLeast0(LeastFree(gpus))
      && e.budget == Share(FractionFor(gpus, cfg, forced), e.total) && e.activations == Share(cfg.activation, e.total)
      && e.weights == (if weightBytes.Some? then Some(ShardedWeights(weightBytes.value, tp * pp, cfg)) else None)
      && e.kvPerToken == (if kv.Some? && pp > 1 then Some(if kv.value / pp > 1 then kv.value / pp else 1) else kv)
      && e.budget == e.kvAvailable + (if e.weights.Some? then e.weights.value else 0)
                     + e.activations + cfg.graphs + (if tp > 1 then cfg.comm else 0) + cfg.overhead
  {
    hide Reserve, ShardedWeights, Round2, Share, NeededCache, LeastTotal, LeastFree, FractionFor, PerLength;
  }

  /** What the cache must hold: the required number of full contexts, or two gibibytes when sizes are unknown. */
  lemma NeededExact(weights: Option<int>, perToken: Option<nat>, context: nat, cfg: MemoryConfig)
    ensures
      NeededCache(weights, perToken, context, cfg) ==
        if weights.Some? && perToken.Some? && perToken.value > 0 then perToken.value * context * cfg.minSequences
        else 2 * 1024 * 1024 * 1024
  {
  }

  /** The tokens the cache holds, and the sequences of median and 95th-percentile length among them. */
  lemma ConcurrencyExact(
      weightBytes: Option<nat>, gpus: seq<Gpu>, tp: nat, pp: nat, kv: Option<nat>, context: nat, lengths: Lengths,
      cfg: MemoryConfig, forced: Option<real>)
    requires gpus != []
    ensures
      var e := EstimateMemory(weightBytes, gpus, tp, pp, kv, context, lengths, cfg, forced);
      && (e.tokens.Some? <==> e.weights.Some? && e.kvPerToken.Some? && e.kvPerToken.value > 0 && e.kvAvailable > 0)
      && (e.tokens.Some? ==>
            && Quotient(e.tokens.value, e.kvAvailable, e.kvPerToken.value)
            && e.c50.Some? && Quotient(e.c50.value, e.tokens.value, Max(1, lengths.p50))
            && e.c95.Some? && Quotient(e.c95.value, e.tokens.value, Max(1, lengths.p95)))
      && (e.tokens.None? ==> e.c50.None? && e.c95.None?)
  {
    var e := EstimateMemory(weightBytes, gpus, tp, pp, kv, context, lengths, cfg, forced);
    if e.tokens.Some? {
      QuotientExact(e.kvAvailable, e.kvPerToken.value);
      QuotientExact(e.tokens.value, Max(1, lengths.p50));
      QuotientExact(e.tokens.value, Max(1, lengths.p95));
    }
    hide Reserve, ShardedWeights, Round2, Share, NeededCache, LeastTotal, LeastFree, FractionFor;
  }

  /** `q` is how many times `d` goes into `n`. */
  predicate Quotient(q: int, n: int, d: int) {
    q * d <= n < q * d + d
  }

  lemma QuotientExact(n: nat, d: nat)
    requires d >= 1
    ensures Quotient(n / d, n, d)
  {
    assert n == n / d * d + n % d;
  }
}

/** The static per-GPU memory model: what one replica needs and what may be promised to it. */
module Memory {
  import opened Common
  import opened Hardware

  const GIB := 1073741824
  const UNKNOWN_KV_SPARE := 2 * GIB

  /** Fractions are of total device memory, the rest are bytes, and `minSequences` full contexts must fit. */
  datatype MemoryConfig = MemoryConfig(
    headroom: real, minHeadroom: nat, overhead: nat, graphs: nat, comm: nat,
    activation: real, shardOverhead: real, maxFraction: real, minFraction: real, minSequences: nat)
  {
    ghost predicate Valid() {
      0.0 <= headroom < 1.0 && 0.0 <= activation && 0.0 <= shardOverhead && 0.0 < minFraction <= maxFraction < 1.0
    }
  }

  const DEFAULT_MEMORY :=
    MemoryConfig(0.08, GIB, 1610612736, GIB, 268435456, 0.025, 0.01, 0.95, 0.30, 1)

  /** Sequence lengths in tokens; the schema keeps the 95th percentile at least the median. */
  datatype Lengths = Lengths(p50: nat, p95: nat)

  datatype Estimate = Estimate(
    total: nat, free: nat, fraction: real, budget: int, weights: Option<int>, activations: int, graphs: nat, comm: nat,
    overhead: nat, reserve: int, kvPerToken: Option<nat>, kvAvailable: int,
    tokens: Option<int>, c50: Option<int>, c95: Option<int>, fits: bool, shortfall: int)

  // ------------------------------------------------------------------ rounding

  /** Rounding to the nearest integer, halves to the even one. */
  function RoundHalfEven(x: real): int {
    var down := x.Floor;
    var rest := x - down as real;
    if rest < 0.5 || (rest == 0.5 && down % 2 == 0) then down else down + 1
  }

  function Round2(x: real): real {
    RoundHalfEven(x * 100.0) as real / 100.0
  }

  // ------------------------------------------------------------------ the pieces

  function RMaxInt(a: real, b: nat): real {
    if a >= b as real then a else b as real
  }

  function Reserve(total: nat, cfg: MemoryConfig): int {
    RMaxInt(cfg.headroom * total as real, cfg.minHeadroom).Floor
  }

  /** The largest fraction, in hundredths, that leaves the reserve untouched. */
  function ComputeFraction(total: nat, free: nat, cfg: MemoryConfig): real {
    if total == 0 then 0.0
    else
      var budget := free as int - Reserve(total, cfg);
      var fraction := (budget as real / total as real * 100.0).Floor as real / 100.0;
      var capped := if fraction <= cfg.maxFraction then fraction else cfg.maxFraction;
      if capped >= 0.0 then capped else 0.0
  }

  function ShardedWeights(weights: nat, shards: nat, cfg: MemoryConfig): int {
    if shards <= 1 then weights else (weights as real / shards as real * (1.0 + cfg.shardOverhead)).Floor
  }

  function LeastTotal(gpus: seq<Gpu>): int
    requires gpus != []
  {
    if |gpus| == 1 then gpus[0].total else Min(gpus[0].total, LeastTotal(gpus[1..]))
  }

  function LeastFree(gpus: seq<Gpu>): (r: int)
    requires gpus != []
    ensures forall g :: g in gpus ==> r <= g.free
    ensures exists g :: g in gpus && g.free == r
  {
    if |gpus| == 1 then gpus[0].free
    else
      assert gpus == [gpus[0]] + gpus[1..];
      Min(gpus[0].free, LeastFree(gpus[1..]))
  }

  /** Devices report sizes that are not negative. */
  ghost predicate Sized(gpus: seq<Gpu>) {
    forall g :: g in gpus ==> g.total >= 0 && g.free >= 0
  }

  function AtLeast0(x: int): nat {
    if x >= 0 then x else 0
  }

  /** A fraction of a device's memory, in whole bytes. */
  function Share(fraction: real, total: nat): int {
    (fraction * total as real).Floor
  }

  /** Key/value cache for a number of full contexts. */
  function CacheNeed(perToken: nat, context: nat, sequences: nat): nat {
    perToken * context * sequences
  }

  /** What must be left for the cache: the required full contexts, or a fixed spare when weights or cache sizes are unknown. */
  function NeededCache(weights: Option<int>, perToken: Option<nat>, context: nat, cfg: MemoryConfig): nat {
    if weights.Some? && perToken.Some? && perToken.value > 0 then CacheNeed(perToken.value, context, cfg.minSequences)
    else UNKNOWN_KV_SPARE
  }

  /** The fraction a replica is to be given: the forced one, or the computed one. */
  function FractionFor(gpus: seq<Gpu>, cfg: MemoryConfig, forced: Option<real>): real
    requires gpus != []
  {
    if forced.Some? then forced.value
    else ComputeFraction(AtLeast0(LeastTotal(gpus)), AtLeast0(LeastFree(gpus)), cfg)
  }

  // ------------------------------------------------------------------ the estimate

  function EstimateMemory(
      weightBytes: Option<nat>, gpus: seq<Gpu>, tp: nat, pp: nat, kv: Option<nat>, context: nat, lengths: Lengths,
      cfg: MemoryConfig, forced: Option<real>): Estimate
    requires gpus != []
  {
    var total, free := AtLeast0(LeastTotal(gpus)), AtLeast0(LeastFree(gpus));
    var fraction := FractionFor(gpus, cfg, forced);
    var budget := Share(fraction, total);
    var weights := if weightBytes.Some? then Some(ShardedWeights(weightBytes.value, tp * pp, cfg)) else None;
    var activations := Share(cfg.activation, total);
    var comm := if tp > 1 then cfg.comm else 0;
    var available := budget - ((if weights.Some? then weights.value else 0) + activations + cfg.graphs + comm + cfg.overhead);
    var perToken := if kv.Some? && pp > 1 then Some(if kv.value / pp > 1 then kv.value / pp else 1) else kv;
    var known := weights.Some? && perToken.Some? && perToken.value > 0;
    var required := NeededCache(weights, perToken, context, cfg);
    var tokens := if known && available > 0 then Some(available / perToken.value) else None;
    var fits0 := available >= required;
    var short0 := if weights.Some? && !fits0 then required - available else 0;
    var overclaims := forced.Some? && budget > free;
    var short1 := if overclaims then Max(short0, budget - free) else short0;
    var meagre := fraction < cfg.minFraction;
    var short2 := if meagre then Max(short1, Share(cfg.minFraction - fraction, total)) else short1;
    Estimate(total, free, Round2(fraction), budget, weights, activations, cfg.graphs, comm, cfg.overhead,
      Reserve(total, cfg), perToken, available, tokens, PerLength(tokens, lengths.p50), PerLength(tokens, lengths.p95),
      fits0 && !overclaims && !meagre, Max(0, short2))
  }

  /** How many sequences of a length fit in a token budget. */
  function PerLength(tokens: Option<int>, length: nat): Option<int> {
    if tokens.None? then None else Some(AtLeast0(tokens.value / Max(1, length)))
  }

  /** `check_memory`: a candidate passes if it fits, or if no shortfall was worked out. */
  predicate Passes(e: Estimate) {
    e.fits || e.shortfall <= 0
  }

  // ------------------------------------------------------------------ small facts about products

  lemma ProductOrder(a: real, b: real, c: real)
    requires a <= b && c >= 0.0
    ensures a * c <= b * c
  {
    assert (b - a) * c >= 0.0;
  }

  lemma QuotientTimes(a: real, b: real)
    requires b > 0.0
    ensures a / b * b == a
  {
  }

  lemma HundredthsBelow(q: real)
    ensures (q * 100.0).Floor as real / 100.0 <= q
  {
  }

  lemma ShareBelow(f: real, budget: int, total: nat)
    requires total > 0 && f <= budget as real / total as real
    ensures Share(f, total) <= budget
  {
    var t := total as real;
    ProductOrder(f, budget as real / t, t);
    QuotientTimes(budget as real, t);
  }

  lemma ComputedBelow(total: nat, free: nat, cfg: MemoryConfig)
    requires ComputeFraction(total, free, cfg) > 0.0
    ensures total > 0
    ensures ComputeFraction(total, free, cfg) <= (free as int - Reserve(total, cfg)) as real / total as real
  {
    hide Reserve;
    if total > 0 {
      HundredthsBelow((free as int - Reserve(total, cfg)) as real / total as real);
    }
  }

  /** At least the headroom share of the device, in whole bytes, and at least the least headroom. */
  predicate KeepsHeadroom(reserve: int, total: nat, cfg: MemoryConfig) {
    cfg.minHeadroom <= reserve && cfg.headroom * total as real < reserve as real + 1.0
  }

  /** The reserve is the larger of the headroom share of the device, in whole bytes, and the least headroom. */
  lemma ReserveExact(total: nat, cfg: MemoryConfig)
    ensures KeepsHeadroom(Reserve(total, cfg), total, cfg)
    ensures Reserve(total, cfg) == cfg.minHeadroom || Reserve(total, cfg) as real <= cfg.headroom * total as real
  {
  }

  /** A computed fraction of the total, plus the reserve, is never more than what is free. */
  lemma FractionLeavesReserve(total: nat, free: nat, cfg: MemoryConfig)
    requires ComputeFraction(total, free, cfg) > 0.0
    ensures Share(ComputeFraction(total, free, cfg), total) + Reserve(total, cfg) <= free
  {
    hide ComputeFraction, Reserve, Share;
    ComputedBelow(total, free, cfg);
    ShareBelow(ComputeFraction(total, free, cfg), free as int - Reserve(total, cfg), total);
  }

  // ------------------------------------------------------------------ what an estimate promises

  /**
   * A replica that is said to fit, with an unforced fraction and known sizes, really does: weights,
   * activations, graphs, communication, overhead and the key/value cache of the required number of
   * full contexts fit in the budget, and the budget leaves the reserve free on every GPU, which is
   * the headroom share of the device and no less than the least headroom.
   */
  lemma MemorySafety(
      weightBytes: nat, gpus: seq<Gpu>, tp: nat, pp: nat, kv: nat, context: nat, lengths: Lengths, cfg: MemoryConfig)
    requires gpus != [] && Sized(gpus) && cfg.Valid() && kv > 0
    requires EstimateMemory(Some(weightBytes), gpus, tp, pp, Some(kv), context, lengths, cfg, None).fits
    ensures
      var e := EstimateMemory(Some(weightBytes), gpus, tp, pp, Some(kv), context, lengths, cfg, None);
      && e.kvPerToken.Some? && e.kvPerToken.value > 0
      && ShardedWeights(weightBytes, tp * pp, cfg) + Share(cfg.activation, e.total) + cfg.graphs
         + (if tp > 1 then cfg.comm else 0) + cfg.overhead
         + CacheNeed(e.kvPerToken.value, context, cfg.minSequences) <= e.budget
      && (forall g :: g in gpus ==> e.budget + Reserve(e.total, cfg) <= g.free)
      && KeepsHeadroom(Reserve(e.total, cfg), e.total, cfg)
  {
    var e := EstimateMemory(Some(weightBytes), gpus, tp, pp, Some(kv), context, lengths, cfg, None);
    FractionLeavesReserve(e.total, e.free, cfg);
    ReserveExact(e.total, cfg);
    assert e.free == LeastFree(gpus);
    hide ComputeFraction, Reserve, ShardedWeights, Round2, LeastFree, Share, CacheNeed, KeepsHeadroom;
  }

  lemma LongerMeansFewer(tokens: nat, p50: nat, p95: nat)
    requires 1 <= p50 <= p95
    ensures tokens / p95 <= tokens / p50
  {
    var q := tokens / p95;
    assert q * p50 <= q * p95 <= tokens by {
      MoreTimes(q, p50, p95);
    }
    AtMostQuotient(tokens, p50, q);
  }

  lemma MoreTimes(q: nat, a: nat, b: nat)
    requires a <= b
    ensures q * a <= q * b
  {
  }

  lemma AtMostQuotient(n: nat, d: nat, q: nat)
    requires d >= 1 && q * d <= n
    ensures q <= n / d
  {
    if q > n / d {
      MoreTimes(d, n / d + 1, q);
    }
  }

  /** The 95th-percentile concurrency never exceeds the median one, and both fit in the cache. */
  lemma ConcurrencyOrdered(
      weightBytes: Option<nat>, gpus: seq<Gpu>, tp: nat, pp: nat, kv: Option<nat>, context: nat, lengths: Lengths,
      cfg: MemoryConfig, forced: Option<real>)
    requires gpus != [] && lengths.p50 <= lengths.p95
    ensures
      var e := EstimateMemory(weightBytes, gpus, tp, pp, kv, context, lengths, cfg, forced);
      && e.c50.Some? == e.c95.Some? == e.tokens.Some?
      && (e.c50.Some? ==> 0 <= e.c95.value <= e.c50.value && e.c50.value * Max(1, lengths.p50) <= e.tokens.value)
      && (e.tokens.Some? ==> e.kvPerToken.Some? && e.tokens.value * e.kvPerToken.value <= e.kvAvailable)
  {
    var e := EstimateMemory(weightBytes, gpus, tp, pp, kv, context, lengths, cfg, forced);
    if e.tokens.Some? {
      WholeShares(e.kvAvailable, e.kvPerToken.value);
      LongerMeansFewer(e.tokens.value, Max(1, lengths.p50), Max(1, lengths.p95));
      WholeShares(e.tokens.value, Max(1, lengths.p50));
    }
  }

  lemma WholeShares(n: nat, d: nat)
    requires d >= 1
    ensures 0 <= n / d && (n / d) * d <= n
  {
  }

  /**
   * What fitting and passing the check come to. A candidate fits if the cache has room, a forced
   * fraction claims no more than is free, and the fraction is not below the minimum. It passes under
   * the same conditions, except that unknown weights excuse a lack of room, and a fraction below the
   * minimum is excused if less than a byte of the device is missing.
   */
  lemma PassesExactly(
      weightBytes: Option<nat>, gpus: seq<Gpu>, tp: nat, pp: nat, kv: Option<nat>, context: nat, lengths: Lengths,
      cfg: MemoryConfig, forced: Option<real>)
    requires gpus != []
    ensures
      var e := EstimateMemory(weightBytes, gpus, tp, pp, kv, context, lengths, cfg, forced);
      var fraction := FractionFor(gpus, cfg, forced);
      var roomy := e.kvAvailable >= NeededCache(e.weights, e.kvPerToken, context, cfg);
      var overclaims := forced.Some? && e.budget > e.free;
      && (e.fits <==> roomy && !overclaims && fraction >= cfg.minFraction)
      && (Passes(e) <==>
            && (weightBytes.Some? ==> roomy) && !overclaims
            && (fraction < cfg.minFraction ==> Share(cfg.minFraction - fraction, e.total) <= 0))
  {
    hide FractionFor, Reserve, ShardedWeights, Round2, Share, NeededCache;
  }

  lemma RoundOfWhole(k: int)
    ensures RoundHalfEven(k as real) == k
  {
  }

  /** A computed fraction is recorded as it is: rounding to hundredths changes nothing. */
  lemma ComputedFractionExact(total: nat, free: nat, cfg: MemoryConfig)
    requires Round2(cfg.maxFraction) == cfg.maxFraction
    ensures Round2(ComputeFraction(total, free, cfg)) == ComputeFraction(total, free, cfg)
  {
    RoundOfWhole(0);
    if total != 0 {
      var k := ((free as int - Reserve(total, cfg)) as real / total as real * 100.0).Floor;
      RoundOfWhole(k);
      assert k as real / 100.0 * 100.0 == k as real;
    }
  }

  /** Rounding moves a fraction by at most half a hundredth, and to one or more exactly from 0.995 on. */
  lemma RoundedFraction(f: real)
    ensures f - 0.005 <= Round2(f) <= f + 0.005
    ensures Round2(f) < 1.0 <==> f < 0.995
    ensures Round2(f) > 0.0 <==> f > 0.005
  {
    var y := f * 100.0;
    assert y.Floor as real <= y < y.Floor as real + 1.0;
    if f < 0.995 {
      assert y < 99.5;
      assert RoundHalfEven(y) <= 99;
    } else {
      assert y >= 99.5;
      assert RoundHalfEven(y) >= 100;
    }
    if f > 0.005 {
      assert RoundHalfEven(y) >= 1;
    } else {
      assert RoundHalfEven(y) <= 0;
    }
  }

  /** The same devices, with other amounts of memory free. */
  ghost predicate SameDevices(a: seq<Gpu>, b: seq<Gpu>) {
    |a| == |b| && forall i :: 0 <= i < |a| ==> a[i].total == b[i].total
  }

  function WithFree(gpus: seq<Gpu>, free: int): (r: seq<Gpu>)
    ensures |r| == |gpus|
  {
    seq(|gpus|, i requires 0 <= i < |gpus| => gpus[i].(free := free))
  }

  lemma {:induction false} SameLeastTotal(a: seq<Gpu>, b: seq<Gpu>)
    requires a != [] && SameDevices(a, b)
    ensures LeastTotal(a) == LeastTotal(b)
  {
    if |a| > 1 {
      SameLeastTotal(a[1..], b[1..]);
    }
  }

  lemma WithFreeIsFree(gpus: seq<Gpu>, free: int)
    requires gpus != []
    ensures LeastFree(WithFree(gpus, free)) == free
  {
  }

  /** With a forced fraction, how much is free decides nothing but whether the claim is too large. */
  lemma FreeOnlyBounds(
      weightBytes: Option<nat>, gpus: seq<Gpu>, others: seq<Gpu>, tp: nat, pp: nat, kv: Option<nat>, context: nat,
      lengths: Lengths, cfg: MemoryConfig, forced: real)
    requires gpus != [] && SameDevices(gpus, others)
    requires EstimateMemory(weightBytes, gpus, tp, pp, kv, context, lengths, cfg, Some(forced)).fits
    ensures
      var e := EstimateMemory(weightBytes, gpus, tp, pp, kv, context, lengths, cfg, Some(forced));
      var f := EstimateMemory(weightBytes, others, tp, pp, kv, context, lengths, cfg, Some(forced));
      && f.total == e.total && f.budget == e.budget == Share(forced, e.total) && f.fraction == Round2(forced)
      && f.free == AtLeast0(LeastFree(others))
      && (f.fits <==> Share(forced, e.total) <= f.free)
  {
    SameLeastTotal(gpus, others);
    hide Reserve, ShardedWeights, Round2, Share, NeededCache, LeastTotal, LeastFree;
  }

  /** What the recorded fraction claims of a group of devices is free on each of them. */
  ghost predicate ClaimIsFree(e: Estimate, gpus: seq<Gpu>) {
    forall g :: g in gpus ==> Share(e.fraction, e.total) <= g.free
  }

  /** However much memory is free on these devices, what is said to fit claims only memory that is free. */
  ghost predicate NeverOverclaims(
      weightBytes: Option<nat>, gpus: seq<Gpu>, tp: nat, pp: nat, kv: Option<nat>, context: nat, lengths: Lengths,
      cfg: MemoryConfig, forced: real)
    requires gpus != []
  {
    forall others :: SameDevices(gpus, others) && Sized(others) ==>
      ClaimIsCovered(EstimateMemory(weightBytes, others, tp, pp, kv, context, lengths, cfg, Some(forced)), others)
  }

  ghost predicate ClaimIsCovered(e: Estimate, gpus: seq<Gpu>) {
    e.fits ==> ClaimIsFree(e, gpus)
  }

  lemma ClaimCovered(
      weightBytes: Option<nat>, gpus: seq<Gpu>, others: seq<Gpu>, tp: nat, pp: nat, kv: Option<nat>, context: nat,
      lengths: Lengths, cfg: MemoryConfig, forced: real)
    requires gpus != [] && SameDevices(gpus, others) && Sized(others)
    requires EstimateMemory(weightBytes, gpus, tp, pp, kv, context, lengths, cfg, Some(forced)).fits
    requires
      var total := AtLeast0(LeastTotal(gpus));
      Share(Round2(forced), total) <= Share(forced, total)
    ensures ClaimIsCovered(EstimateMemory(weightBytes, others, tp, pp, kv, context, lengths, cfg, Some(forced)), others)
  {
    FreeOnlyBounds(weightBytes, gpus, others, tp, pp, kv, context, lengths, cfg, forced);
    EstimateTotal(weightBytes, gpus, tp, pp, kv, context, lengths, cfg, forced);
    hide EstimateMemory, Share, Round2, LeastTotal;
  }

  lemma EstimateTotal(
      weightBytes: Option<nat>, gpus: seq<Gpu>, tp: nat, pp: nat, kv: Option<nat>, context: nat, lengths: Lengths,
      cfg: MemoryConfig, forced: real)
    requires gpus != []
    ensures
      EstimateMemory(weightBytes, gpus, tp, pp, kv, context, lengths, cfg, Some(forced)).total == AtLeast0(LeastTotal(gpus))
  {
    hide Reserve, ShardedWeights, Round2, Share, NeededCache, LeastTotal, LeastFree;
  }

  /** With exactly the forced share free, a recorded fraction that claims more is not covered. */
  lemma ClaimUncovered(
      weightBytes: Option<nat>, gpus: seq<Gpu>, tp: nat, pp: nat, kv: Option<nat>, context: nat, lengths: Lengths,
      cfg: MemoryConfig, forced: real) returns (others: seq<Gpu>)
    requires gpus != [] && Sized(gpus) && 0.0 < forced
    requires EstimateMemory(weightBytes, gpus, tp, pp, kv, context, lengths, cfg, Some(forced)).fits
    requires
      var total := AtLeast0(LeastTotal(gpus));
      Share(Round2(forced), total) > Share(forced, total)
    ensures SameDevices(gpus, others) && Sized(others)
    ensures !ClaimIsCovered(EstimateMemory(weightBytes, others, tp, pp, kv, context, lengths, cfg, Some(forced)), others)
  {
    var total := AtLeast0(LeastTotal(gpus));
    var claim := Share(forced, total);
    assert claim >= 0 by {
      ProductOrder(0.0, forced, total as real);
    }
    others := WithFree(gpus, claim);
    SameLeastTotal(gpus, others);
    assert forall k :: 0 <= k < |gpus| ==> gpus[k] in gpus && others[k] == gpus[k].(free := claim);
    assert Sized(others);
    WithFreeIsFree(gpus, claim);
    assert others[0] in others && others[0].free == claim;
    hide EstimateMemory, Share, Round2, LeastTotal, WithFree, Sized;
    FreeOnlyBounds(weightBytes, gpus, others, tp, pp, kv, context, lengths, cfg, forced);
    EstimateTotal(weightBytes, gpus, tp, pp, kv, context, lengths, cfg, forced);
  }

  /**
   * A forced fraction on given devices, roomy enough to fit at all. However much memory turns out to
   * be free, whatever is then said to fit claims only memory that is free, if and only if recording
   * the fraction in hundredths does not raise what it claims.
   */
  lemma ForcedClaimExact(
      weightBytes: Option<nat>, gpus: seq<Gpu>, tp: nat, pp: nat, kv: Option<nat>, context: nat, lengths: Lengths,
      cfg: MemoryConfig, forced: real)
    requires gpus != [] && Sized(gpus) && 0.0 < forced < 1.0
    requires EstimateMemory(weightBytes, gpus, tp, pp, kv, context, lengths, cfg, Some(forced)).fits
    ensures
      var total := AtLeast0(LeastTotal(gpus));
      NeverOverclaims(weightBytes, gpus, tp, pp, kv, context, lengths, cfg, forced)
      <==> Share(Round2(forced), total) <= Share(forced, total)
  {
    var total := AtLeast0(LeastTotal(gpus));
    hide EstimateMemory, Share, Round2, LeastTotal, ClaimIsCovered, SameDevices;
    if Share(Round2(forced), total) <= Share(forced, total) {
      forall others | SameDevices(gpus, others) && Sized(others)
        ensures ClaimIsCovered(EstimateMemory(weightBytes, others, tp, pp, kv, context, lengths, cfg, Some(forced)), others)
      {
        ClaimCovered(weightBytes, gpus, others, tp, pp, kv, context, lengths, cfg, forced);
      }
    } else {
      var others := ClaimUncovered(weightBytes, gpus, tp, pp, kv, context, lengths, cfg, forced);
    }
  }

  /**
   * The claim can exceed what is free: two 80 GiB devices with exactly the forced share of 0.506
   * free, under the default configuration, are said to fit and then asked for 0.51.
   */
  lemma ForcedClaimMayExceedFree() returns (gpus: seq<Gpu>, forced: real)
    ensures gpus != [] && Sized(gpus) && 0.0 < forced < 1.0
    ensures
      var weights, kv, lengths := 16 * GIB, 65536, Lengths(768, 2816);
      var e := EstimateMemory(Some(weights), gpus, 2, 1, Some(kv), 8192, lengths, DEFAULT_MEMORY, Some(forced));
      e.fits && !ClaimIsFree(e, gpus)
  {
    var device := Gpu(0, "gpu", 85899345920, 43465069035, None);
    gpus, forced := [device, device.(index := 1)], 0.506;
    assert LeastTotal(gpus[1..]) == 85899345920 && LeastFree(gpus[1..]) == 43465069035;
    assert RoundHalfEven(50.6) == 51;
    assert Round2(forced) == 0.51;
    assert Share(0.51, 85899345920) == 43808666419;
    assert Share(0.506, 85899345920) == 43465069035;
    assert Share(0.025, 85899345920) == 2147483648;
    assert ShardedWeights(16 * GIB, 2, DEFAULT_MEMORY) <= 8675833938;
    assert CacheNeed(65536, 8192, 1) == 536870912;
    assert gpus[0] in gpus;
  }
}

/** The order in which candidates are benchmarked. */
module Ranking {
  import opened Common
  import opened Sorting
  import opened Schemas
  import opened Hardware
  import opened GpuGroups
  import opened Memory
  import opened Selection
  import opened Validation
  import opened Candidates

  lemma {:induction false} StringsTotal(a: string, b: string)
    ensures StringLe(a, b) || StringLe(b, a)
  {
    if a != [] && b != [] && a[0] == b[0] {
      StringsTotal(a[1..], b[1..]);
    }
  }

  lemma {:induction false} StringsTransitive(a: string, b: string, c: string)
    requires StringLe(a, b) && StringLe(b, c)
    ensures StringLe(a, c)
  {
    if a != [] && b != [] && c != [] && a[0] == b[0] == c[0] {
      StringsTransitive(a[1..], b[1..], c[1..]);
    }
  }

  /** In dictionary order: a prefix, or smaller at the first place where they differ. */
  ghost predicate NotAfter(a: string, b: string) {
    a <= b || exists k :: Differs(a, b, k)
  }

  ghost predicate Differs(a: string, b: string, k: int) {
    0 <= k < |a| && k < |b| && a[..k] == b[..k] && a[k] < b[k]
  }

  lemma {:induction false} StringMeans(a: string, b: string)
    ensures StringLe(a, b) <==> NotAfter(a, b)
  {
    if a != [] && b != [] {
      if a[0] < b[0] {
        assert Differs(a, b, 0);
      } else if a[0] == b[0] {
        StringMeans(a[1..], b[1..]);
        assert a <= b <==> a[1..] <= b[1..];
        if k :| Differs(a[1..], b[1..], k) {
          assert a[..k + 1] == [a[0]] + a[1..][..k] && b[..k + 1] == [b[0]] + b[1..][..k];
          assert Differs(a, b, k + 1);
        }
        if k :| Differs(a, b, k) {
          assert a[1..][..k - 1] == a[..k][1..] && b[1..][..k - 1] == b[..k][1..];
          assert Differs(a[1..], b[1..], k - 1);
        }
      } else {
        NotAfterHead(a, b);
      }
    }
  }

  lemma NotAfterHead(a: string, b: string)
    requires a != [] && b != [] && a[0] > b[0]
    ensures !NotAfter(a, b)
  {
    forall k | 0 < k < |a| && k < |b| ensures !Differs(a, b, k) {
      assert a[..k][0] == a[0] && b[..k][0] == b[0];
    }
  }

  predicate Sharded(p: CandidatePlan) {
    p.expertParallel || p.dpAttention
  }

  /**
   * One plan is benchmarked no later than another: by size, the larger first where latency matters and
   * the smaller otherwise; then by pipeline stages, plain before sharded experts, and the engine's name.
   */
  ghost predicate InOrder(objective: Objective, p: CandidatePlan, q: CandidatePlan) {
    && (if objective.Latency? then p.tp >= q.tp else p.tp <= q.tp)
    && (p.tp == q.tp ==> p.pp <= q.pp)
    && (p.tp == q.tp && p.pp == q.pp ==> (Sharded(p) ==> Sharded(q)))
    && (p.tp == q.tp && p.pp == q.pp && Sharded(p) == Sharded(q) ==> NotAfter(p.engine, q.engine))
  }

  lemma SoonerMeans(objective: Objective, p: CandidatePlan, q: CandidatePlan)
    ensures Sooner(objective, p, q) <==> InOrder(objective, p, q)
  {
    StringMeans(p.engine, q.engine);
    hide StringLe, NotAfter;
  }

  lemma OrderTotal(objective: Objective)
    ensures TotalPreorder(Order(objective))
  {
    forall p, q ensures Sooner(objective, p, q) || Sooner(objective, q, p) {
      StringsTotal(p.engine, q.engine);
    }
    forall p, q, r | Sooner(objective, p, q) && Sooner(objective, q, r) ensures Sooner(objective, p, r) {
      if StringLe(p.engine, q.engine) && StringLe(q.engine, r.engine) {
        StringsTransitive(p.engine, q.engine, r.engine);
      }
    }
  }

  /**
   * The candidates are the deduplicated plans, each once, in benchmarking order; plans the order does
   * not tell apart stay in the order they were generated in.
   */
  lemma RankingExact(unique: seq<CandidatePlan>, objective: Objective)
    ensures
      var ranked := Sort(unique, Order(objective));
      && multiset(ranked) == multiset(unique)
      && (forall i, j :: 0 <= i < j < |ranked| ==> InOrder(objective, ranked[i], ranked[j]))
      && forall p :: Ties(p, ranked, Order(objective)) == Ties(p, unique, Order(objective))
  {
    var le := Order(objective);
    OrderTotal(objective);
    SortPermutes(unique, le);
    SortOrders(unique, le);
    forall p ensures Ties(p, Sort(unique, le), le) == Ties(p, unique, le) {
      SortStable(p, unique, le);
    }
    forall i, j | 0 <= i < j < |Sort(unique, le)| ensures InOrder(objective, Sort(unique, le)[i], Sort(unique, le)[j]) {
      assert le(Sort(unique, le)[i], Sort(unique, le)[j]);
      SoonerMeans(objective, Sort(unique, le)[i], Sort(unique, le)[j]);
    }
  }

  /** What generation returns is in benchmarking order. */
  lemma GenerateRanked(
      snapshot: Snapshot, model: Model, workload: Workload, engines: seq<Engine>, constraints: Constraints, memory: MemoryConfig)
    ensures
      match Generate(snapshot, model, workload, engines, constraints, memory)
      case Err(_) => true
      case Ok(plans) => plans != [] && forall i, j :: 0 <= i < j < |plans| ==> InOrder(workload.objective, plans[i], plans[j])
  {
    if engines != [] && SelectGpus(snapshot, constraints.gpuIds).Ok? && ResolveContext(model, workload, constraints).Ok? {
      var selected := SelectGpus(snapshot, constraints.gpuIds).value;
      var context := ResolveContext(model, workload, constraints).value;
      AllRanked(Inputs(selected, model, workload, engines, constraints, memory, context));
      hide AllPlans;
    }
  }

  lemma AllRanked(inp: Inputs)
    ensures
      match AllPlans(inp)
      case Err(_) => true
      case Ok(plans) =>
        plans != [] && forall i, j :: 0 <= i < j < |plans| ==> InOrder(inp.workload.objective, plans[i], plans[j])
  {
    hide PlansForAll, CrossNodePlans, Deduped, InOrder, TpValues;
    forall unique: seq<CandidatePlan>
      ensures
        var ranked := Sort(unique, Order(inp.workload.objective));
        |ranked| == |unique| && forall i, j :: 0 <= i < j < |ranked| ==> InOrder(inp.workload.objective, ranked[i], ranked[j])
    {
      RankingExact(unique, inp.workload.objective);
      SortPermutes(unique, Order(inp.workload.objective));
    }
    hide Sort;
  }
}

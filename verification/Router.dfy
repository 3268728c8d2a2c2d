/** The replica router over shared, mutable replica states, each method tied to the routing table it means. */
module Router {
  import opened Common
  import opened Semaphore
  import opened Routing

  class ReplicaState {
    const id: string
    /** The cell this object stands for. */
    ghost const cell: nat
    var status: Health
    var inflight: int
    var requests: int
    var failures: int
    var lastError: Option<string>
    var healthFailures: int
    var restarts: int

    constructor (id: string, ghost cell: nat)
      ensures this.id == id && this.cell == cell && Value() == NewCell(id)
    {
      this.id, this.cell := id, cell;
      status, inflight, requests, failures := Starting, 0, 0, 0;
      lastError, healthFailures, restarts := None, 0, 0;
    }

    ghost function Value(): Cell
      reads this
    {
      Cell(id, status, inflight, requests, failures, lastError, healthFailures, restarts)
    }
  }

  class RouteLease {
    var replica: ReplicaState
    var excluded: set<string>

    constructor (replica: ReplicaState)
      ensures this.replica == replica && excluded == {replica.id}
    {
      this.replica, excluded := replica, {replica.id};
    }
  }

  /** How the next stretch of acquiring a lease ends; a queued request resumes once it is granted a permit. */
  datatype Acquisition = Acquired(lease: RouteLease) | Queued | Overloaded | Unroutable

  class ReplicaRouter {
    const policy: Policy
    const depth: nat
    var permits: Option<Permits>
    var waiting: int
    var rejected: int
    var tick: nat
    /** Insertion order of the routable replicas, as the dictionary keeps it. */
    var replicas: seq<ReplicaState>
    var totalRequests: int
    var totalErrors: int
    /** Every replica state ever created here, removed or not. */
    ghost var created: seq<ReplicaState>

    constructor (policy: Policy, limit: Option<nat>, depth: nat)
      ensures Valid() && Table() == Routing.Table([], [], policy, 0, 0, 0) && created == []
      ensures permits == PermitsFor(limit) && waiting == 0 && rejected == 0 && this.depth == depth
    {
      this.policy, this.depth := policy, depth;
      permits, waiting, rejected := PermitsFor(limit), 0, 0;
      tick, replicas, totalRequests, totalErrors := 0, [], 0, 0;
      created := [];
    }

    ghost predicate Owns(r: ReplicaState)
      reads this`created
    {
      r.cell < |created| && created[r.cell] == r
    }

    ghost function Cells(): (cells: seq<Cell>)
      reads this`created, created
      ensures |cells| == |created|
    {
      var all := created;
      seq(|all|, i requires 0 <= i < |all| reads all => all[i].Value())
    }

    ghost function Entries(): (entries: seq<nat>)
      reads this`replicas
      ensures |entries| == |replicas|
    {
      CellsOf(replicas)
    }

    /** The routing table this router stands for. */
    ghost function Table(): Table
      reads this`created, this`replicas, this`tick, this`totalRequests, this`totalErrors, created
    {
      Routing.Table(Cells(), Entries(), policy, tick, totalRequests, totalErrors)
    }

    ghost predicate Valid()
      reads this`created, this`replicas, this`tick, this`totalRequests, this`totalErrors, created
    {
      && (forall i :: 0 <= i < |created| ==> created[i].cell == i)
      && (forall k :: 0 <= k < |replicas| ==> Owns(replicas[k]))
      && WellFormed(Table())
    }

    // ---------------------------------------------------------------- replica management

    method Find(id: string) returns (k: nat)
      requires Valid()
      ensures k == Position(Table(), id)
    {
      k := 0;
      while k < |replicas| && replicas[k].id != id
        invariant k <= |replicas| && PositionFrom(Table(), id, 0) == PositionFrom(Table(), id, k)
      {
        k := k + 1;
      }
    }

    /** A new replica state, not yet routable. */
    method Create(id: string) returns (state: ReplicaState)
      requires Valid()
      modifies this`created
      ensures Valid() && fresh(state) && Owns(state) && created == old(created) + [state]
      ensures state.id == id && state.cell == |old(Table()).cells|
      ensures Table() == old(Table()).(cells := old(Table()).cells + [NewCell(id)])
    {
      ghost var before := Table();
      state := new ReplicaState(id, |created|);
      created := created + [state];
      assert Cells() == before.cells + [NewCell(id)];
      assert Entries() == before.entries;
    }

    method AddReplica(id: string) returns (state: ReplicaState)
      requires Valid()
      modifies this`replicas, this`created
      ensures Valid() && fresh(state) && Owns(state) && created == old(created) + [state]
      ensures Table() == Add(old(Table()), id)
    {
      ghost var before := Table();
      var k := Find(id);
      state := Create(id);
      hide Position, WellFormed, Add, Table;
      Install(k, state);
      AddInTwoSteps(before, id, Table());
    }

    /** Make a replica state routable, at a position of the table or at its end. */
    method Install(k: nat, state: ReplicaState)
      requires OwnsAll(replicas) && Owns(state)
      modifies this`replicas
      ensures OwnsAll(replicas)
      ensures
        var entries := old(Table()).entries;
        Table() == old(Table()).(
          entries := if k < |entries| then entries[k := state.cell] else entries + [state.cell])
    {
      CellsOfPut(replicas, k, state);
      hide CellsOf;
      replicas := if k < |replicas| then replicas[k := state] else replicas + [state];
    }

    method RemoveReplica(id: string)
      requires Valid()
      modifies this`replicas
      ensures Valid() && created == old(created)
      ensures Table() == Remove(old(Table()), id)
    {
      ghost var before := Table();
      var k := Find(id);
      hide WellFormed, PositionFrom, CellsOf;
      if k < |replicas| {
        CellsOfCut(replicas, k);
        replicas := replicas[..k] + replicas[k + 1..];
      }
      assert Cells() == before.cells;
      assert Entries() == Remove(before, id).entries;
    }

    method SetStatus(id: string, status: Health, error: Option<string>)
      requires Valid()
      modifies created
      ensures Valid()
      ensures Table() == Routing.SetStatus(old(Table()), id, status, error)
    {
      var k := Find(id);
      if k == |replicas| {
        return;
      }
      hide PositionFrom, WellFormed;
      Mark(replicas[k], status, error);
    }

    method Mark(r: ReplicaState, status: Health, error: Option<string>)
      requires Valid() && Owns(r)
      modifies r
      ensures Valid() && r.cell < |old(Table()).cells|
      ensures
        var cell := old(Table()).cells[r.cell].(status := status);
        Table() == old(Table()).(
          cells := old(Table()).cells[r.cell := if error.Some? then cell.(lastError := error) else cell])
    {
      ghost var before := Table();
      r.status := status;
      if error.Some? {
        r.lastError := error;
      }
      assert Cells() == before.cells[r.cell := r.Value()];
      assert Entries() == before.entries;
    }

    // ---------------------------------------------------------------- choosing a replica

    ghost predicate OwnsAll(rs: seq<ReplicaState>)
      reads this`created
    {
      forall k :: 0 <= k < |rs| ==> Owns(rs[k])
    }

    /** Healthy replicas that are not excluded. */
    method HealthyReplicas(excluded: set<string>) returns (rs: seq<ReplicaState>)
      requires Valid()
      ensures OwnsAll(rs) && CellsOf(rs) == Candidates(Cells(), Entries(), excluded)
    {
      rs := [];
      ghost var cells, entries := Cells(), Entries();
      CandidatesNext(cells, entries, excluded, 0, []);
      hide CandidatesSoFar, Candidates;
      for i := 0 to |replicas|
        invariant OwnsAll(rs) && CandidatesSoFar(cells, entries, excluded, i, CellsOf(rs))
      {
        CandidatesNext(cells, entries, excluded, i, CellsOf(rs));
        if replicas[i].status.Healthy? && replicas[i].id !in excluded {
          CellsOfAppend(rs, replicas[i]);
          rs := rs + [replicas[i]];
        }
      }
      CandidatesNext(cells, entries, excluded, |entries|, CellsOf(rs));
    }

    lemma Inflights(rs: seq<ReplicaState>)
      requires OwnsAll(rs)
      ensures forall k :: 0 <= k < |rs| ==>
                CellsOf(rs)[k] < |Cells()| && Cells()[CellsOf(rs)[k]].inflight == rs[k].inflight
    {
    }

    method LeastBusy(rs: seq<ReplicaState>) returns (least: int)
      requires Valid() && OwnsAll(rs) && rs != []
      ensures least == Least(Cells(), CellsOf(rs))
    {
      hide *;
      least := rs[0].inflight;
      ghost var at := 0;
      for i := 1 to |rs|
        invariant 0 <= at < i && least == rs[at].inflight
        invariant forall k :: 0 <= k < i ==> least <= rs[k].inflight
      {
        if rs[i].inflight < least {
          least, at := rs[i].inflight, i;
        }
      }
      Inflights(rs);
      LeastIs(Cells(), CellsOf(rs), at);
    }

    method TiedAt(rs: seq<ReplicaState>, least: int) returns (ties: seq<ReplicaState>)
      requires Valid() && OwnsAll(rs)
      ensures OwnsAll(ties) && CellsOf(ties) == Ties(Cells(), CellsOf(rs), least)
    {
      ties := [];
      ghost var cells, cs := Cells(), CellsOf(rs);
      TiesNext(cells, cs, least, 0, []);
      hide TiesSoFar, Ties, WellFormed;
      for i := 0 to |rs|
        invariant OwnsAll(ties) && TiesSoFar(cells, cs, least, i, CellsOf(ties))
      {
        TiesNext(cells, cs, least, i, CellsOf(ties));
        if rs[i].inflight == least {
          CellsOfAppend(ties, rs[i]);
          ties := ties + [rs[i]];
        }
      }
      TiesNext(cells, cs, least, |cs|, CellsOf(ties));
    }

    /** The next value of the policy's counter. */
    method NextTick() returns (t: nat)
      requires Valid()
      modifies this`tick
      ensures t == old(tick) && tick == t + 1 && Valid() && Cells() == old(Cells())
    {
      hide WellFormed;
      ghost var cells := Cells();
      t := tick;
      tick := tick + 1;
      assert Cells() == cells;
      SameEntries(old(Table()), Table());
    }

    /** The policy's choice among candidates. */
    method Choose(rs: seq<ReplicaState>) returns (r: ReplicaState)
      requires Valid() && OwnsAll(rs) && rs != []
      modifies this`tick
      ensures Owns(r) && Pick(policy, old(tick), Cells(), CellsOf(rs)) == Choice(r.cell, tick)
    {
      hide WellFormed, Least, Ties, Valid;
      if policy.RoundRobin? {
        var t := NextTick();
        return rs[t % |rs|];
      }
      var least := LeastBusy(rs);
      var ties := TiedAt(rs, least);
      if |ties| == 1 {
        return ties[0];
      }
      assert |ties| == |CellsOf(ties)|;
      var t := NextTick();
      r := ties[t % |ties|];
    }

    /** A healthy replica outside `excluded`, if there is one. */
    method Select(excluded: set<string>) returns (r: Option<ReplicaState>)
      requires Valid()
      modifies this`tick
      ensures r.Some? ==> Owns(r.value)
      ensures Routing.Select(old(Table()), excluded) == if r.Some? then Some(Choice(r.value.cell, tick)) else None
      ensures Valid() && Table() == old(Table()).(tick := tick) && (r.None? ==> tick == old(tick))
    {
      ghost var t := Table();
      var rs := HealthyReplicas(excluded);
      hide Candidates, Pick, WellFormed;
      assert |rs| == |CellsOf(rs)|;
      if rs == [] {
        return None;
      }
      ghost var cs := CellsOf(rs);
      assert Routing.Select(t, excluded) == Some(Pick(policy, tick, t.cells, cs));
      var chosen := Choose(rs);
      hide CellsOf, Routing.Select;
      assert Cells() == t.cells && Entries() == t.entries;
      SameEntries(t, Table());
      return Some(chosen);
    }

    // ---------------------------------------------------------------- leases

    /** Count a new request on a replica. */
    method Open(r: ReplicaState)
      requires Valid() && Owns(r)
      modifies r
      ensures Valid() && r.cell < |old(Table()).cells|
      ensures Table() == old(Table()).(cells := old(Table()).cells[r.cell := Opened(old(Table()).cells[r.cell])])
    {
      ghost var before := Table();
      r.inflight := r.inflight + 1;
      r.requests := r.requests + 1;
      assert Cells() == before.cells[r.cell := Opened(before.cells[r.cell])];
      assert Entries() == before.entries;
    }

    /** Give up a replica's in-flight slot, charging it a failure if asked to. */
    method Close(r: ReplicaState, failed: bool, error: Option<string>)
      requires Valid() && Owns(r)
      modifies r
      ensures Valid() && r.cell < |old(Table()).cells|
      ensures Table() ==
                old(Table()).(cells := old(Table()).cells[r.cell := Closed(old(Table()).cells[r.cell], failed, error)])
    {
      ghost var before := Table();
      r.inflight := Floor0(r.inflight - 1);
      if failed {
        r.failures := r.failures + 1;
        if error.Some? {
          r.lastError := error;
        }
      }
      assert Cells() == before.cells[r.cell := Closed(before.cells[r.cell], failed, error)];
      assert Entries() == before.entries;
    }

    /** Charge one replica and open the other. */
    method Shift(from: ReplicaState, to: ReplicaState, error: Option<string>)
      requires Valid() && Owns(from) && Owns(to)
      modifies from, to
      ensures Valid() && from.cell < |old(Table()).cells| && to.cell < |old(Table()).cells|
      ensures Table() == Move(old(Table()), from.cell, Choice(to.cell, old(Table()).tick), error)
    {
      hide WellFormed, Opened, Closed, Valid, Table;
      Close(from, true, error);
      Open(to);
    }

    /** Add to the router-wide counters. */
    method Count(requests: int, errors: int)
      requires Valid()
      modifies this`totalRequests, this`totalErrors
      ensures Valid()
      ensures Table() ==
                old(Table()).(totalRequests := old(Table()).totalRequests + requests,
                              totalErrors := old(Table()).totalErrors + errors)
    {
      ghost var before := Table();
      totalRequests, totalErrors := totalRequests + requests, totalErrors + errors;
      assert Cells() == before.cells && Entries() == before.entries;
    }

    /** Open a replica for a new request. */
    method Enlist(r: ReplicaState)
      requires Valid() && Owns(r)
      modifies this`totalRequests, this`totalErrors, r
      ensures Valid() && r.cell < |old(Table()).cells|
      ensures Table() == Routing.Admit(old(Table()), Choice(r.cell, old(Table()).tick))
    {
      hide WellFormed, Opened, Valid, Table;
      Open(r);
      Count(1, 0);
    }

    /** Pick a replica for a new request and open a lease on it. */
    method Admit() returns (lease: Option<RouteLease>)
      requires Valid()
      modifies this`tick, this`totalRequests, this`totalErrors, created
      ensures Valid() && created == old(created)
      ensures
        var choice := Routing.Select(old(Table()), {});
        && lease.Some? == choice.Some?
        && (lease.None? ==> Table() == old(Table()))
        && (lease.Some? ==>
              && fresh(lease.value) && Owns(lease.value.replica) && lease.value.replica.cell == choice.value.cell
              && lease.value.excluded == {lease.value.replica.id}
              && Table() == Routing.Admit(old(Table()), choice.value))
    {
      var chosen := Select({});
      assert chosen.Some? ==> Routing.Admit(old(Table()), Choice(chosen.value.cell, tick))
                              == Routing.Admit(Table(), Choice(chosen.value.cell, tick));
      hide Routing.Select, WellFormed, Opened, Valid, Table;
      if chosen.None? {
        return None;
      }
      hide Routing.Admit;
      Enlist(chosen.value);
      var claim := new RouteLease(chosen.value);
      return Some(claim);
    }

    /** Move a lease to another healthy replica, charging the one it leaves; or leave it untouched. */
    method Reroute(lease: RouteLease, error: Option<string>) returns (moved: bool)
      requires Valid() && Owns(lease.replica) && lease.replica.id in lease.excluded
      modifies this`tick, created, lease
      ensures Valid() && created == old(created)
      ensures
        var choice := Routing.Select(old(Table()), old(lease.excluded));
        && moved == choice.Some?
        && (!moved ==> Table() == old(Table()) && lease.replica == old(lease.replica) && lease.excluded == old(lease.excluded))
        && (moved ==>
              && Owns(lease.replica) && lease.replica.cell == choice.value.cell
              && lease.excluded == old(lease.excluded) + {lease.replica.id}
              && Table() == Move(old(Table()), old(lease.replica).cell, choice.value, error))
    {
      var chosen := Select(lease.excluded);
      assert chosen.Some? ==> Move(old(Table()), lease.replica.cell, Choice(chosen.value.cell, tick), error)
                              == Move(Table(), lease.replica.cell, Choice(chosen.value.cell, tick), error);
      hide Routing.Select, WellFormed, Opened, Closed, Valid, Table;
      if chosen.None? {
        return false;
      }
      var replica := chosen.value;
      hide Move;
      Shift(lease.replica, replica, error);
      lease.replica, lease.excluded := replica, lease.excluded + {replica.id};
      return true;
    }

    /** End a lease, charging its replica if the request failed, and give its permit back. */
    method Release(lease: RouteLease, failed: bool, error: Option<string>)
      requires Valid() && Owns(lease.replica)
      modifies this`totalRequests, this`totalErrors, this`permits, created
      ensures Valid() && created == old(created)
      ensures permits == ReleaseAny(old(permits))
      ensures Table() == Routing.Release(old(Table()), lease.replica.cell, failed, error)
    {
      hide WellFormed, Closed, Valid, Table;
      Close(lease.replica, failed, error);
      Count(0, if failed then 1 else 0);
      permits := ReleaseAny(permits);
    }

    // ---------------------------------------------------------------- concurrency

    /** Pick a replica while holding a permit, or give the permit back. */
    method Enter() returns (a: Acquisition)
      requires Valid()
      modifies this`tick, this`totalRequests, this`totalErrors, this`permits, created
      ensures Valid() && created == old(created)
      ensures
        var choice := Routing.Select(old(Table()), {});
        && a == (if a.Acquired? then a else Unroutable) && a.Acquired? == choice.Some?
        && permits == (if a.Acquired? then old(permits) else ReleaseAny(old(permits)))
        && Table() == (if choice.Some? then Routing.Admit(old(Table()), choice.value) else old(Table()))
        && (a.Acquired? ==> fresh(a.lease) && Owns(a.lease.replica) && a.lease.replica.cell == choice.value.cell)
    {
      var lease := Admit();
      hide Routing.Select, WellFormed, Valid, Table, Routing.Admit;
      if lease.Some? {
        return Acquired(lease.value);
      }
      permits := ReleaseAny(permits);
      return Unroutable;
    }

    /** `acquire` up to its first suspension: refuse, join the queue, or take a permit and go on. */
    method Acquire(task: nat) returns (a: Acquisition)
      requires Valid()
      modifies this`tick, this`totalRequests, this`totalErrors, this`permits, this`waiting, this`rejected, created
      ensures Valid() && created == old(created)
      ensures
        var locked := old(permits).Some? && old(permits).value.Locked();
        && (a.Overloaded? <==> locked && old(waiting) >= depth)
        && (a.Queued? <==> locked && old(waiting) < depth)
        && (locked ==> Table() == old(Table()))
        && (a.Overloaded? ==> rejected == old(rejected) + 1 && permits == old(permits) && waiting == old(waiting))
        && (a.Queued? ==>
              rejected == old(rejected) && permits == Some(Join(old(permits).value, task)) && waiting == old(waiting) + 1)
        && (!locked ==>
              var taken := if old(permits).Some? then Some(TakeFree(old(permits).value)) else None;
              var choice := Routing.Select(old(Table()), {});
              && rejected == old(rejected) && waiting == old(waiting) && a.Acquired? == choice.Some?
              && permits == (if a.Acquired? then taken else ReleaseAny(taken))
              && Table() == (if choice.Some? then Routing.Admit(old(Table()), choice.value) else old(Table())))
      ensures a.Acquired? ==> fresh(a.lease) && Owns(a.lease.replica)
    {
      hide Routing.Select, WellFormed, Valid, Table, Routing.Admit;
      if permits.Some? {
        if permits.value.Locked() && waiting >= depth {
          rejected := rejected + 1;
          return Overloaded;
        }
        if permits.value.Locked() {
          waiting := waiting + 1;
          permits := Some(Join(permits.value, task));
          return Acquisition.Queued;
        }
        permits := Some(TakeFree(permits.value));
      }
      a := Enter();
    }

    /** A queued task that has been granted a permit goes on. */
    method ResumeAcquire(task: nat) returns (a: Acquisition)
      requires Valid() && permits.Some? && Granted(permits.value.queue, task)
      modifies this`tick, this`totalRequests, this`totalErrors, this`permits, this`waiting, created
      ensures Valid() && created == old(created) && waiting == old(waiting) - 1
      ensures
        var kept := Some(Semaphore.Resume(old(permits).value, task));
        var choice := Routing.Select(old(Table()), {});
        && a.Acquired? == choice.Some?
        && permits == (if a.Acquired? then kept else ReleaseAny(kept))
        && Table() == (if choice.Some? then Routing.Admit(old(Table()), choice.value) else old(Table()))
    {
      hide Routing.Select, WellFormed, Valid, Table, Routing.Admit;
      permits := Some(Semaphore.Resume(permits.value, task));
      waiting := waiting - 1;
      a := Enter();
    }

    /** A queued task is cancelled. */
    method CancelAcquire(task: nat)
      requires Valid() && permits.Some?
      modifies this`permits, this`waiting
      ensures Valid() && Table() == old(Table())
      ensures permits == Some(Leave(old(permits).value, task)) && waiting == old(waiting) - 1
    {
      hide WellFormed, Valid, Table;
      permits := Some(Leave(permits.value, task));
      waiting := waiting - 1;
    }

    /** Replace the semaphore; whoever holds or awaits the old one's permits is not told. */
    method SetMaxConcurrency(limit: Option<nat>)
      requires Valid()
      modifies this`permits
      ensures Valid() && Table() == old(Table()) && permits == PermitsFor(limit)
    {
      hide WellFormed, Valid, Table;
      permits := PermitsFor(limit);
    }
  }

  lemma SameEntries(t: Table, u: Table)
    requires WellFormed(t) && u.entries == t.entries && u.cells == t.cells
    ensures WellFormed(u)
  {
  }

  ghost function CellsOf(rs: seq<ReplicaState>): (cs: seq<nat>)
    ensures |cs| == |rs|
  {
    seq(|rs|, k requires 0 <= k < |rs| => rs[k].cell)
  }

  lemma CellsOfCut(rs: seq<ReplicaState>, k: nat)
    requires k < |rs|
    ensures CellsOf(rs[..k] + rs[k + 1..]) == CellsOf(rs)[..k] + CellsOf(rs)[k + 1..]
  {
  }

  lemma CellsOfPut(rs: seq<ReplicaState>, k: nat, r: ReplicaState)
    ensures k < |rs| ==> CellsOf(rs[k := r]) == CellsOf(rs)[k := r.cell]
    ensures CellsOf(rs + [r]) == CellsOf(rs) + [r.cell]
  {
  }

  lemma CellsOfAppend(rs: seq<ReplicaState>, r: ReplicaState)
    ensures CellsOf(rs + [r]) == CellsOf(rs) + [r.cell]
  {
  }
}

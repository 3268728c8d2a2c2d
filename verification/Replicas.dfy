/** Launching, stopping and restarting the replicas of one plan. */
module Replicas {
  import opened Common
  import opened Routing
  import opened Ports

  /** How a launch goes: whether a process starts at all, and how waiting for it to serve ends. */
  datatype Readiness = Ready | NotReady | Raises
  datatype Launch = Launch(free: int -> bool, starts: bool, readiness: Readiness)

  /** A replica knows its plan position, its port and the process serving it. */
  datatype Replica = Replica(index: nat, port: int, process: nat)

  /** A router entry: its status, and how often the replica behind it has been restarted. */
  datatype Entry = Entry(status: Health, restarts: nat)

  datatype Outcome = Started(replica: Replica) | NoPort | LaunchFailed | NeverReady | WaitFailed

  /**
   * The replicas in service, the ports taken, the router entries by plan position, and every process
   * ever launched with whether it still runs.
   */
  datatype Lineup = Lineup(replicas: seq<Replica>, taken: seq<int>, entries: map<nat, Entry>, processes: seq<bool>)

  const NOBODY := Lineup([], [], map[], [])

  predicate Serves(replicas: seq<Replica>, process: int) {
    exists k :: 0 <= k < |replicas| && replicas[k].process == process
  }

  predicate Covers(replicas: seq<Replica>, index: nat) {
    exists k :: 0 <= k < |replicas| && replicas[k].index == index
  }

  /** Every running process serves one of the replicas, those that outlive their termination aside. */
  ghost predicate Tracked(l: Lineup, outlive: set<nat>) {
    && (forall k :: 0 <= k < |l.replicas| ==> l.replicas[k].process < |l.processes|)
    && (forall p :: 0 <= p < |l.processes| && l.processes[p] && p !in outlive ==> Serves(l.replicas, p))
  }

  /** After launching the first `n`: those that came up serve, and nothing else runs or counts as healthy. */
  ghost predicate Partly(l: Lineup, n: nat, outlive: set<nat>) {
    && Tracked(l, outlive)
    && (forall k :: 0 <= k < |l.replicas| ==> InService(l, l.replicas[k], n))
    && (forall j, k :: 0 <= j < k < |l.replicas| ==>
          && l.replicas[j].index < l.replicas[k].index
          && l.replicas[j].port != l.replicas[k].port && l.replicas[j].process != l.replicas[k].process)
    && (forall i :: i in l.entries ==> i < n && (l.entries[i].status.Healthy? ==> Covers(l.replicas, i)))
  }

  predicate InService(l: Lineup, r: Replica, n: nat) {
    && r.index < n && r.port in l.taken && r.process < |l.processes| && l.processes[r.process]
    && r.index in l.entries && l.entries[r.index] == Entry(Healthy, 0)
  }

  /** What a launch leaves behind, by the way it ended: a replica to be put in service, or no running process. */
  predicate LedTo(o: Outcome, index: nat, l: Lineup, m: Lineup, outlive: set<nat>) {
    var process := |l.processes|;
    && m.replicas == l.replicas
    && match o
       case Started(r) =>
         && r.index == index && r.port !in l.taken && r.process == process && m.taken == l.taken + [r.port]
         && m.processes == l.processes + [true] && m.entries == l.entries[index := Entry(Healthy, 0)]
       case NoPort => m == l
       case LaunchFailed => m == l.(taken := m.taken) && l.taken < m.taken
       case NeverReady =>
         && l.taken < m.taken && m.processes == l.processes + [process in outlive]
         && m.entries == l.entries[index := Entry(Stopped, 0)]
       case WaitFailed =>
         && l.taken < m.taken && m.processes == l.processes + [process in outlive]
         && m.entries == l.entries[index := Entry(Starting, 0)]
  }

  function Joined(l: Lineup, o: Outcome): Lineup {
    if o.Started? then l.(replicas := l.replicas + [o.replica]) else l
  }

  lemma PartlyNext(o: Outcome, n: nat, l: Lineup, m: Lineup, outlive: set<nat>)
    requires Partly(l, n, outlive) && LedTo(o, n, l, m, outlive)
    ensures Partly(Joined(m, o), n + 1, outlive)
  {
    hide Partly;
    if o.Started? {
      PartlyStarted(l, n, o.replica, outlive);
      assert Joined(m, o) ==
        Lineup(l.replicas + [o.replica], l.taken + [o.replica.port], l.entries[n := Entry(Healthy, 0)], l.processes + [true]);
    } else {
      PartlyFailed(l, n, m, outlive);
    }
  }

  /** Launching number `n` did not come up. */
  lemma PartlyFailed(l: Lineup, n: nat, m: Lineup, outlive: set<nat>)
    requires Partly(l, n, outlive) && m.replicas == l.replicas && l.taken <= m.taken
    requires
      || (m.entries == l.entries && m.processes == l.processes)
      || (exists status: Health :: !status.Healthy? && m.entries == l.entries[n := Entry(status, 0)]
                           && m.processes == l.processes + [|l.processes| in outlive])
    ensures Partly(m, n + 1, outlive)
  {
    forall k | 0 <= k < |m.replicas| ensures InService(m, m.replicas[k], n + 1) {
      assert InService(l, l.replicas[k], n);
    }
    forall p | 0 <= p < |m.processes| && m.processes[p] && p !in outlive ensures Serves(m.replicas, p) {
      assert p < |l.processes| && l.processes[p];
    }
  }

  /** Launching number `n` came up. */
  lemma PartlyStarted(l: Lineup, n: nat, r: Replica, outlive: set<nat>)
    requires Partly(l, n, outlive) && r.index == n && r.process == |l.processes| && r.port !in l.taken
    ensures
      Partly(Lineup(l.replicas + [r], l.taken + [r.port], l.entries[n := Entry(Healthy, 0)], l.processes + [true]),
             n + 1, outlive)
  {
    var m := Lineup(l.replicas + [r], l.taken + [r.port], l.entries[n := Entry(Healthy, 0)], l.processes + [true]);
    assert m.replicas[|l.replicas|] == r;
    StartedInService(l, n, r, m);
    StartedTracked(l, r, m, outlive);
    hide InService, Tracked;
    forall j, k | 0 <= j < k < |m.replicas|
      ensures
        && m.replicas[j].index < m.replicas[k].index
        && m.replicas[j].port != m.replicas[k].port && m.replicas[j].process != m.replicas[k].process
    {
      ServiceFacts(l, l.replicas[j], n);
    }
    forall i | i in m.entries && m.entries[i].status.Healthy? ensures Covers(m.replicas, i) {
      if i != n {
        var k :| 0 <= k < |l.replicas| && l.replicas[k].index == i;
        assert m.replicas[k].index == i;
      }
    }
  }

  lemma ServiceFacts(l: Lineup, r: Replica, n: nat)
    requires InService(l, r, n)
    ensures r.index < n && r.port in l.taken && r.process < |l.processes|
  {
  }

  lemma StartedInService(l: Lineup, n: nat, r: Replica, m: Lineup)
    requires forall k :: 0 <= k < |l.replicas| ==> InService(l, l.replicas[k], n)
    requires r.index == n && r.process == |l.processes|
    requires m == Lineup(l.replicas + [r], l.taken + [r.port], l.entries[n := Entry(Healthy, 0)], l.processes + [true])
    ensures forall k :: 0 <= k < |m.replicas| ==> InService(m, m.replicas[k], n + 1)
  {
    forall k | 0 <= k < |m.replicas| ensures InService(m, m.replicas[k], n + 1) {
      if k < |l.replicas| {
        assert InService(l, l.replicas[k], n);
      }
    }
  }

  lemma StartedTracked(l: Lineup, r: Replica, m: Lineup, outlive: set<nat>)
    requires Tracked(l, outlive) && r.process == |l.processes|
    requires m.replicas == l.replicas + [r] && m.processes == l.processes + [true]
    ensures Tracked(m, outlive)
  {
    assert m.replicas[|l.replicas|] == r;
    forall p | 0 <= p < |m.processes| && m.processes[p] && p !in outlive ensures Serves(m.replicas, p) {
      if p < |l.processes| {
        var k :| 0 <= k < |l.replicas| && l.replicas[k].process == p;
        assert m.replicas[k].process == p;
      }
    }
  }

  lemma PartlyNothing(outlive: set<nat>)
    ensures Partly(NOBODY, 0, outlive)
  {
  }

  lemma PartlyTracks(l: Lineup, n: nat, outlive: set<nat>)
    requires Partly(l, n, outlive)
    ensures Tracked(l, outlive)
    ensures forall i :: i in l.entries && l.entries[i].status.Healthy? ==> Covers(l.replicas, i)
  {
  }

  /** What a restart leaves behind: the old process is gone; the replacement serves, is gone too, or was abandoned. */
  predicate RestartedTo(o: Outcome, k: nat, l: Lineup, m: Lineup, outlive: set<nat>)
    requires k < |l.replicas| && l.replicas[k].process < |l.processes|
  {
    var former, index, process := l.replicas[k].process, l.replicas[k].index, |l.processes|;
    var ended := l.processes[former := l.processes[former] && former in outlive];
    var restarts := if index in l.entries then l.entries[index].restarts + 1 else 1;
    && m.taken == l.taken
    && match o
       case Started(r) =>
         && r == l.replicas[k].(process := process) && m.replicas == l.replicas[k := r]
         && m.processes == ended + [true] && m.entries == l.entries[index := Entry(Healthy, restarts)]
       case NeverReady =>
         && m.replicas == l.replicas && m.processes == ended + [process in outlive]
         && m.entries == l.entries[index := Entry(Unhealthy, restarts)]
       case WaitFailed =>
         && m.replicas == l.replicas && m.processes == ended + [true]
         && m.entries == l.entries[index := Entry(Starting, restarts)]
       case _ =>
         && m.replicas == l.replicas && m.processes == ended && m.entries == l.entries[index := Entry(Unhealthy, restarts)]
  }

  /** A restart loses track of a running process exactly when waiting for the replacement raises or is cancelled. */
  lemma RestartTracks(o: Outcome, k: nat, l: Lineup, m: Lineup, outlive: set<nat>)
    requires Tracked(l, outlive) && k < |l.replicas| && RestartedTo(o, k, l, m, outlive)
    ensures Tracked(m, outlive) <==> !o.WaitFailed? || |l.processes| in outlive
  {
    var newest := |l.processes|;
    if o.WaitFailed? && newest !in outlive {
      assert m.processes[newest] && !Serves(m.replicas, newest);
    } else {
      forall p | 0 <= p < |m.processes| && m.processes[p] && p !in outlive ensures Serves(m.replicas, p) {
        if p < |l.processes| {
          assert l.processes[p] && p != l.replicas[k].process;
          var j :| 0 <= j < |l.replicas| && l.replicas[j].process == p;
          assert m.replicas[j].process == p;
        } else {
          assert m.replicas[k].process == p;
        }
      }
    }
  }

  class ReplicaSet {
    const count: nat
    const ports: PortAllocator
    /** The processes, by number, that the system fails to kill. */
    const outlive: set<nat>
    var replicas: seq<Replica>
    var taken: seq<int>
    /** Router entries, by plan position. */
    var entries: map<nat, Entry>
    /** Every process ever launched, and whether it still runs. */
    var processes: seq<bool>

    constructor (count: nat, ports: PortAllocator, outlive: set<nat>)
      requires ports.Valid() && count >= 1
      ensures this.count == count && this.ports == ports && this.outlive == outlive && ports.Valid() && Now() == NOBODY
    {
      this.count, this.ports, this.outlive := count, ports, outlive;
      replicas, taken, entries, processes := [], [], map[], [];
    }

    function Now(): Lineup
      reads this
    {
      Lineup(replicas, taken, entries, processes)
    }

    /** Everything this set has reserved is reserved at the allocator, and no port twice. */
    ghost predicate Holds(others: set<int>)
      reads this, ports
    {
      && ports.Valid() && Distinct(taken)
      && SetOf(taken) !! others && ports.reserved == others + SetOf(taken)
    }

    /** Reserve a port, launch a process and wait until it serves; a process that does not is terminated. */
    method LaunchOne(index: nat, launch: Launch, ghost others: set<int>) returns (o: Outcome)
      requires Holds(others)
      modifies this`taken, this`entries, this`processes, ports
      ensures Holds(others)
      ensures o.Started? <==> !o.NoPort? && launch.starts && launch.readiness.Ready?
      ensures o.NoPort? <==>
                forall q :: ports.range.Contains(q) ==> !Available(q, old(ports.reserved), launch.free)
      ensures LedTo(o, index, old(Now()), Now(), outlive)
    {
      AllocationComplete(ports.range, ports.cursor, ports.reserved, launch.free);
      var port := ports.Allocate(launch.free);
      if port.None? {
        return NoPort;
      }
      ghost var before := taken;
      taken := taken + [port.value];
      assert SetOf(taken) == SetOf(before) + {port.value};
      assert port.value !in SetOf(before);
      if !launch.starts {
        return LaunchFailed;
      }
      var process := |processes|;
      processes := processes + [true];
      entries := entries[index := Entry(Starting, 0)];
      match launch.readiness {
        case Raises =>
          Terminate(process);
          return WaitFailed;
        case NotReady =>
          Terminate(process);
          entries := entries[index := Entry(Stopped, 0)];
          return NeverReady;
        case Ready =>
          entries := entries[index := Entry(Healthy, 0)];
          return Started(Replica(index, port.value, process));
      }
    }

    /** Kill a process, if the system can. */
    method Terminate(process: nat)
      requires process < |processes|
      modifies this`processes
      ensures processes == old(processes)[process := old(processes)[process] && process in outlive]
    {
      processes := processes[process := processes[process] && process in outlive];
    }

    /** Terminate every replica, forget its router entry and release every port; is every replica's process gone? */
    method Stop(ghost others: set<int>) returns (gone: bool)
      requires Holds(others)
      requires forall k :: 0 <= k < |replicas| ==> replicas[k].process < |processes|
      modifies this`taken, this`entries, this`processes, ports
      ensures Holds(others) && taken == [] && ports.reserved == others
      ensures Terminated(old(Now()), Now(), |replicas|, outlive)
      ensures gone <==> forall p :: 0 <= p < |processes| && Serves(replicas, p) ==> !processes[p]
    {
      TerminateAll();
      gone := true;
      for n := 0 to |replicas|
        invariant gone <==> forall k :: 0 <= k < n ==> !processes[replicas[k].process]
      {
        gone := gone && !processes[replicas[n].process];
      }
      ReleasePorts(others);
    }

    method TerminateAll()
      requires forall k :: 0 <= k < |replicas| ==> replicas[k].process < |processes|
      modifies this`entries, this`processes
      ensures Terminated(old(Now()), Now(), |replicas|, outlive)
    {
      for n := 0 to |replicas|
        invariant Terminated(old(Now()), Now(), n, outlive)
      {
        TerminatedNext(old(Now()), Now(), n, outlive);
        Terminate(replicas[n].process);
        entries := entries - {replicas[n].index};
      }
    }

    method ReleasePorts(ghost others: set<int>)
      requires Holds(others)
      modifies this`taken, ports
      ensures Holds(others) && taken == [] && ports.reserved == others
    {
      ghost var mine := taken;
      for n := 0 to |taken|
        invariant taken == mine && ports.Valid() && ports.reserved == others + SetOf(mine[n..])
        invariant SetOf(mine[n..]) !! others
      {
        assert mine[n..] == [mine[n]] + mine[n + 1..];
        assert mine[n] !in SetOf(mine[n + 1..]);
        assert mine[n] in SetOf(mine);
        ports.Release(taken[n]);
      }
      taken := [];
    }

    /** Launch all replicas but the first, whatever becomes of each; the first failure is reported. */
    method LaunchRest(launches: seq<Launch>, ghost others: set<int>) returns (failure: Option<Outcome>)
      requires Holds(others) && count >= 1 && |launches| == count && Partly(Now(), 1, outlive)
      requires |replicas| == 1 && replicas[0].index == 0
      modifies this`taken, this`entries, this`processes, this`replicas, ports
      ensures Holds(others) && Partly(Now(), count, outlive)
      ensures failure.Some? ==> !failure.value.Started?
      ensures failure.None? ==> |replicas| == count && forall k :: 0 <= k < count ==> replicas[k].index == k
    {
      failure := None;
      hide Partly, LedTo;
      for index := 1 to count
        invariant Holds(others) && Partly(Now(), index, outlive)
        invariant failure.Some? ==> !failure.value.Started?
        invariant failure.None? ==> |replicas| == index && forall k :: 0 <= k < index ==> replicas[k].index == k
      {
        ghost var before := Now();
        var launched := LaunchOne(index, launches[index], others);
        PartlyNext(launched, index, before, Now(), outlive);
        StartedIndex(launched, index, before, Now(), outlive);
        ghost var after := Now();
        if launched.Started? {
          replicas := replicas + [launched.replica];
        } else if failure.None? {
          failure := Some(launched);
        }
        assert Now() == Joined(after, launched);
      }
    }

    /**
     * Start every replica or none: either all of them serve, in plan order, or every process that
     * was launched is terminated and every port that was taken is released.
     */
    method Start(launches: seq<Launch>, ghost others: set<int>) returns (o: Option<Outcome>)
      requires ports.Valid() && Now() == NOBODY && count >= 1 && |launches| == count && ports.reserved == others
      modifies this, ports
      ensures o.None? ==>
                && Holds(others) && Partly(Now(), count, outlive)
                && |replicas| == count && forall k :: 0 <= k < count ==> replicas[k].index == k
      ensures o.Some? ==>
                && !o.value.Started?
                && taken == [] && ports.reserved == others
                && (forall p :: 0 <= p < |processes| && processes[p] ==> p in outlive)
                && (forall i :: i in entries ==> !entries[i].status.Healthy?)
    {
      PartlyNothing(outlive);
      hide Partly, LedTo;
      var first := LaunchOne(0, launches[0], others);
      PartlyNext(first, 0, NOBODY, Now(), outlive);
      StartedIndex(first, 0, NOBODY, Now(), outlive);
      if !first.Started? {
        Abandon(1, others);
        return Some(first);
      }
      ghost var after := Now();
      replicas := [first.replica];
      assert Now() == Joined(after, first);
      var failure := LaunchRest(launches, others);
      if failure.Some? {
        Abandon(count, others);
      }
      return failure;
    }

    /** Replace a dead replica in place, on the same port. */
    method RestartReplica(k: nat, launch: Launch) returns (o: Outcome)
      requires k < |replicas| && replicas[k].process < |processes|
      modifies this`replicas, this`entries, this`processes
      ensures RestartedTo(o, k, old(Now()), Now(), outlive)
      ensures o.Started? <==> launch.starts && launch.readiness.Ready?
      ensures o.WaitFailed? <==> launch.starts && launch.readiness.Raises?
    {
      var r := replicas[k];
      Terminate(r.process);
      var restarts := if r.index in entries then entries[r.index].restarts + 1 else 1;
      entries := entries - {r.index};
      if !launch.starts {
        entries := entries[r.index := Entry(Unhealthy, restarts)];
        return LaunchFailed;
      }
      var process := |processes|;
      processes := processes + [true];
      entries := entries[r.index := Entry(Starting, restarts)];
      match launch.readiness {
        case Raises =>
          return WaitFailed;
        case NotReady =>
          Terminate(process);
          entries := entries[r.index := Entry(Unhealthy, restarts)];
          return NeverReady;
        case Ready =>
          entries := entries[r.index := Entry(Healthy, restarts)];
          var restarted := r.(process := process);
          replicas := replicas[k := restarted];
          return Started(restarted);
      }
    }

    /** Stop after a failed start: nothing keeps running, and nothing is left that could be routed to. */
    method Abandon(ghost n: nat, ghost others: set<int>)
      requires Holds(others) && Partly(Now(), n, outlive)
      modifies this`taken, this`entries, this`processes, ports
      ensures taken == [] && ports.reserved == others
      ensures forall p :: 0 <= p < |processes| && processes[p] ==> p in outlive
      ensures forall i :: i in entries ==> !entries[i].status.Healthy?
    {
      PartlyTracks(Now(), n, outlive);
      hide Partly;
      var _ := Stop(others);
    }
  }

  predicate AmongFirst(replicas: seq<Replica>, n: nat, process: int) {
    exists k :: 0 <= k < n && k < |replicas| && replicas[k].process == process
  }

  predicate FirstCover(replicas: seq<Replica>, n: nat, index: nat) {
    exists k :: 0 <= k < n && k < |replicas| && replicas[k].index == index
  }

  /** The processes of the first `n` replicas are gone, unless they outlive it, and so are their router entries. */
  ghost predicate Terminated(l: Lineup, m: Lineup, n: nat, outlive: set<nat>) {
    && m.replicas == l.replicas && |m.processes| == |l.processes|
    && (forall p :: 0 <= p < |l.processes| ==>
          m.processes[p] == (l.processes[p] && (p in outlive || !AmongFirst(l.replicas, n, p))))
    && (forall i :: i in m.entries <==> i in l.entries && !FirstCover(l.replicas, n, i))
    && (forall i :: i in m.entries ==> m.entries[i] == l.entries[i])
  }

  lemma TerminatedNext(l: Lineup, m: Lineup, n: nat, outlive: set<nat>)
    requires Terminated(l, m, n, outlive) && n < |l.replicas| && l.replicas[n].process < |l.processes|
    ensures
      var r := l.replicas[n];
      Terminated(l,
        m.(processes := m.processes[r.process := m.processes[r.process] && r.process in outlive],
           entries := m.entries - {r.index}),
        n + 1, outlive)
  {
    forall p: int ensures AmongFirst(l.replicas, n + 1, p) <==> AmongFirst(l.replicas, n, p) || p == l.replicas[n].process {
      if p == l.replicas[n].process {
        assert l.replicas[n].process == p;
      }
    }
    forall i: nat ensures FirstCover(l.replicas, n + 1, i) <==> FirstCover(l.replicas, n, i) || i == l.replicas[n].index {
      if i == l.replicas[n].index {
        assert l.replicas[n].index == i;
      }
    }
    hide AmongFirst, FirstCover;
  }

  lemma StartedIndex(o: Outcome, index: nat, l: Lineup, m: Lineup, outlive: set<nat>)
    requires LedTo(o, index, l, m, outlive)
    ensures o.Started? ==> o.replica.index == index
  {
  }

  /** However a restart ends, the router entry afterwards counts one restart more than the one before. */
  lemma RestartCounted(o: Outcome, k: nat, l: Lineup, m: Lineup, outlive: set<nat>)
    requires k < |l.replicas| && l.replicas[k].process < |l.processes| && RestartedTo(o, k, l, m, outlive)
    ensures
      var index := l.replicas[k].index;
      && index in m.entries
      && m.entries[index].restarts == (if index in l.entries then l.entries[index].restarts else 0) + 1
      && forall i :: i != index ==> (i in m.entries <==> i in l.entries) && (i in l.entries ==> m.entries[i] == l.entries[i])
  {
  }
}

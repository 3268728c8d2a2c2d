/**
 * The health checker and the proxy over one router: what the checker decides about a replica is what
 * the router then knows of it.
 */
module Deployment {
  import opened Common
  import opened Routing
  import Semaphore
  import Proxy
  import Serving
  import HealthChecks

  /** The status a routable id has. */
  function StatusOf(t: Table, id: string): Option<Health>
    requires WellFormed(t)
  {
    var k := Position(t, id);
    if k < |t.entries| then Some(t.cells[t.entries[k]].status) else None
  }

  predicate IsAt(t: Table, k: nat, id: string, status: Health)
    requires WellFormed(t) && k < |t.entries|
  {
    t.cells[t.entries[k]].id == id && t.cells[t.entries[k]].status == status
  }

  lemma StatusAt(t: Table, k: nat)
    requires WellFormed(t) && k < |t.entries|
    ensures StatusOf(t, t.cells[t.entries[k]].id) == Some(t.cells[t.entries[k]].status)
  {
    PositionExact(t, t.cells[t.entries[k]].id, 0);
  }

  lemma NoStatus(t: Table, id: string)
    requires WellFormed(t) && forall k :: 0 <= k < |t.entries| ==> t.cells[t.entries[k]].id != id
    ensures StatusOf(t, id) == None
  {
    PositionExact(t, id, 0);
  }

  lemma StatusIs(t: Table, id: string)
    requires WellFormed(t)
    ensures StatusOf(t, id).Some? ==>
              exists k :: 0 <= k < |t.entries| && IsAt(t, k, id, StatusOf(t, id).value)
    ensures StatusOf(t, id).None? ==> forall k :: 0 <= k < |t.entries| ==> t.cells[t.entries[k]].id != id
  {
    PositionExact(t, id, 0);
    var p := Position(t, id);
    if p < |t.entries| {
      assert IsAt(t, p, id, StatusOf(t, id).value);
    }
  }

  /** Adding a replica makes it starting, and changes no other. */
  lemma AddStatus(t: Table, id: string, other: string)
    requires WellFormed(t)
    ensures StatusOf(Add(t, id), other) == if other == id then Some(Starting) else StatusOf(t, other)
  {
    var u, p := Add(t, id), Position(t, id);
    PositionExact(t, id, 0);
    StatusIs(t, other);
    if other == id {
      StatusAt(u, p);
    } else if StatusOf(t, other).Some? {
      var k :| 0 <= k < |t.entries| && IsAt(t, k, other, StatusOf(t, other).value);
      StatusAt(u, k);
    } else {
      NoStatus(u, other);
    }
  }

  /** Removing a replica leaves it without status, and changes no other. */
  lemma RemoveStatus(t: Table, id: string, other: string)
    requires WellFormed(t)
    ensures StatusOf(Remove(t, id), other) == if other == id then None else StatusOf(t, other)
  {
    var u, p := Remove(t, id), Position(t, id);
    PositionExact(t, id, 0);
    StatusIs(t, other);
    if other != id && StatusOf(t, other).Some? {
      var k :| 0 <= k < |t.entries| && IsAt(t, k, other, StatusOf(t, other).value);
      var j := if k < p then k else k - 1;
      assert u.entries[if p == |t.entries| then k else j] == t.entries[k];
      StatusAt(u, if p == |t.entries| then k else j);
    } else {
      NoStatus(u, other);
    }
  }

  /** Setting the status of a routable replica changes no other; of any other, nothing. */
  lemma ChangeStatus(t: Table, id: string, status: Health, error: Option<string>, other: string)
    requires WellFormed(t)
    ensures StatusOf(SetStatus(t, id, status, error), other) ==
              if other == id && StatusOf(t, id).Some? then Some(status) else StatusOf(t, other)
  {
    var u := SetStatus(t, id, status, error);
    PositionExact(t, id, 0);
    StatusIs(t, other);
    if StatusOf(t, other).Some? {
      var k :| 0 <= k < |t.entries| && IsAt(t, k, other, StatusOf(t, other).value);
      StatusAt(u, k);
    } else {
      NoStatus(u, other);
    }
  }

  /** Serving requests changes no status. */
  lemma SameStatuses(t: Table, u: Table, id: string)
    requires WellFormed(t) && WellFormed(u) && u.entries == t.entries && |u.cells| == |t.cells|
    requires forall c: nat :: c < |t.cells| ==> u.cells[c].id == t.cells[c].id && u.cells[c].status == t.cells[c].status
    ensures StatusOf(u, id) == StatusOf(t, id)
  {
    StatusIs(t, id);
    if StatusOf(t, id).Some? {
      var k :| 0 <= k < |t.entries| && IsAt(t, k, id, StatusOf(t, id).value);
      StatusAt(u, k);
    } else {
      NoStatus(u, id);
    }
  }

  // ------------------------------------------------------------------ the two together

  /** Replica `i` is known to the router by `names[i]`. */
  datatype State = State(names: seq<string>, fleet: HealthChecks.Fleet, world: Proxy.World)

  datatype Step = Serve(serving: Proxy.Step) | Supervise(health: HealthChecks.Step)

  predicate Managing(s: Proxy.Step) {
    s.AddReplica? || s.RemoveReplica? || s.ChangeStatus?
  }

  /** What the router is told when a replica's entry goes from `a` to `b`. */
  function Told(t: Table, id: string, a: Option<Health>, b: Option<Health>): (u: Table)
    requires WellFormed(t)
    ensures WellFormed(u)
  {
    if a == b then t
    else if b.None? then Remove(t, id)
    else SetStatus(if a.None? then Add(t, id) else t, id, b.value, None)
  }

  /** The router after it has been told about the first `n` replicas. */
  function Informed(
      t: Table, names: seq<string>, before: seq<HealthChecks.Slot>, after: seq<HealthChecks.Slot>, n: nat): (u: Table)
    requires WellFormed(t) && n <= |names| && |names| == |before| == |after|
    ensures WellFormed(u)
  {
    if n == 0 then t
    else Told(Informed(t, names, before, after, n - 1), names[n - 1], before[n - 1].entry, after[n - 1].entry)
  }

  predicate Enabled(d: State, s: Step) {
    match s
    case Serve(serving) => !Managing(serving) && Proxy.Enabled(d.world, serving)
    case Supervise(health) => HealthChecks.Enabled(d.fleet, health)
  }

  ghost function Next(limits: HealthChecks.Limits, d: State, s: Step): State
    requires Enabled(d, s) && Joined(limits, d)
  {
    match s
    case Serve(serving) => d.(world := Proxy.Next(d.world, serving))
    case Supervise(health) =>
      HealthChecks.StepKeeps(limits, d.fleet, health);
      var fleet := HealthChecks.Next(limits, d.fleet, health);
      d.(fleet := fleet,
         world := d.world.(table := Informed(d.world.table, d.names, d.fleet.slots, fleet.slots, |d.names|)))
  }

  /** The router knows of each replica what the fleet does, and of nothing else. */
  ghost predicate Mirrors(t: Table, names: seq<string>, slots: seq<HealthChecks.Slot>)
    requires WellFormed(t)
  {
    && |names| == |slots| && Distinct(names)
    && (forall i :: 0 <= i < |names| ==> StatusOf(t, names[i]) == slots[i].entry)
    && (forall id: string :: StatusOf(t, id).Some? ==> id in names)
  }

  ghost predicate Joined(limits: HealthChecks.Limits, d: State) {
    && HealthChecks.Kept(limits, d.fleet) && Proxy.Sane(d.world)
    && Mirrors(d.world.table, d.names, d.fleet.slots)
  }

  // ------------------------------------------------------------------ what every step keeps

  lemma ToldStatus(t: Table, id: string, a: Option<Health>, b: Option<Health>, other: string)
    requires WellFormed(t) && StatusOf(t, id) == a
    ensures StatusOf(Told(t, id, a, b), other) == if other == id then b else StatusOf(t, other)
  {
    if a == b {
    } else if b.None? {
      RemoveStatus(t, id, other);
    } else {
      var u := if a.None? then Add(t, id) else t;
      AddStatus(t, id, other);
      AddStatus(t, id, id);
      ChangeStatus(u, id, b.value, None, other);
    }
    hide StatusOf, Add, Remove, SetStatus, WellFormed;
  }

  /** The router has been told about the first `n` replicas. */
  ghost predicate MirrorsFirst(
    t: Table, names: seq<string>, before: seq<HealthChecks.Slot>, after: seq<HealthChecks.Slot>, n: nat)
    requires WellFormed(t) && |names| == |before| == |after|
  {
    && (forall i :: 0 <= i < |names| ==> StatusOf(t, names[i]) == if i < n then after[i].entry else before[i].entry)
    && (forall id: string :: StatusOf(t, id).Some? ==> id in names)
  }

  lemma MirrorsNext(t: Table, names: seq<string>, before: seq<HealthChecks.Slot>, after: seq<HealthChecks.Slot>, n: nat)
    requires WellFormed(t) && n < |names| && |names| == |before| == |after| && Distinct(names)
    requires MirrorsFirst(t, names, before, after, n)
    ensures MirrorsFirst(Told(t, names[n], before[n].entry, after[n].entry), names, before, after, n + 1)
  {
    var u := Told(t, names[n], before[n].entry, after[n].entry);
    forall id: string ensures StatusOf(u, id) == if id == names[n] then after[n].entry else StatusOf(t, id) {
      ToldStatus(t, names[n], before[n].entry, after[n].entry, id);
    }
    hide StatusOf, Told, WellFormed;
  }

  lemma {:induction false} InformedStatus(
      t: Table, names: seq<string>, before: seq<HealthChecks.Slot>, after: seq<HealthChecks.Slot>, n: nat)
    requires WellFormed(t) && n <= |names| && |names| == |before| == |after| && Mirrors(t, names, before)
    ensures MirrorsFirst(Informed(t, names, before, after, n), names, before, after, n)
  {
    hide StatusOf, Told, WellFormed;
    if n > 0 {
      InformedStatus(t, names, before, after, n - 1);
      MirrorsNext(Informed(t, names, before, after, n - 1), names, before, after, n - 1);
      hide MirrorsFirst;
    }
  }

  /** Requests, books and permits are in order in `u` if they are in `w`. */
  ghost predicate AsSound(w: Proxy.World, u: Proxy.World) {
    Proxy.Sane(u) && forall limit :: Serving.Invariant(w, limit) ==> Serving.Invariant(u, limit)
  }

  lemma ManageKeeps(w: Proxy.World, s: Proxy.Step)
    requires Proxy.Sane(w) && Managing(s)
    ensures AsSound(w, Proxy.Next(w, s))
  {
    Proxy.StepKeeps(w, s);
    forall limit | Serving.Invariant(w, limit) ensures Serving.Invariant(Proxy.Next(w, s), limit) {
      Serving.LedgerStep(w, s);
      Serving.PermitsStep(w, s, limit);
    }
    hide Proxy.Sane, Proxy.Next;
  }

  lemma OnTables(w: Proxy.World, id: string, status: Health)
    requires Proxy.Sane(w)
    ensures AsSound(w, w.(table := Add(w.table, id)))
    ensures AsSound(w, w.(table := Remove(w.table, id)))
    ensures AsSound(w, w.(table := SetStatus(w.table, id, status, None)))
  {
    hide Proxy.Sane, Add, Remove, SetStatus, AsSound;
    hide Proxy.Arrived, Proxy.Enter, Proxy.Retry, Proxy.Finish;
    ManageKeeps(w, Proxy.AddReplica(id));
    ManageKeeps(w, Proxy.RemoveReplica(id));
    ManageKeeps(w, Proxy.ChangeStatus(id, status, None));
  }

  lemma SoundThrough(w: Proxy.World, v: Proxy.World, u: Proxy.World)
    requires AsSound(w, v) && AsSound(v, u)
    ensures AsSound(w, u)
  {
    hide Proxy.Sane, Serving.Invariant;
  }

  /** Being told of a replica is a management step of the router, or two. */
  lemma ToldKeeps(w: Proxy.World, id: string, a: Option<Health>, b: Option<Health>)
    requires Proxy.Sane(w)
    ensures AsSound(w, w.(table := Told(w.table, id, a, b)))
  {
    OnTables(w, id, Starting);
    if a == b {
      assert w.(table := w.table) == w;
      hide Proxy.Sane, Serving.Invariant, Add, Remove, SetStatus;
    } else if b.Some? {
      OnTables(w, id, b.value);
      assert Proxy.Sane(w.(table := Add(w.table, id)));
      OnTables(w.(table := Add(w.table, id)), id, b.value);
      SoundThrough(w, w.(table := Add(w.table, id)), w.(table := SetStatus(Add(w.table, id), id, b.value, None)));
      hide AsSound, Proxy.Sane, Serving.Invariant, Add, Remove, SetStatus;
    }
  }

  lemma {:induction false} InformedKeeps(
      w: Proxy.World, names: seq<string>, before: seq<HealthChecks.Slot>, after: seq<HealthChecks.Slot>, n: nat)
    requires Proxy.Sane(w) && n <= |names| && |names| == |before| == |after|
    ensures AsSound(w, w.(table := Informed(w.table, names, before, after, n)))
  {
    if n == 0 {
      assert w.(table := w.table) == w;
    } else {
      hide Told, AsSound, Proxy.Sane;
      InformedKeeps(w, names, before, after, n - 1);
      var u := w.(table := Informed(w.table, names, before, after, n - 1));
      SoundIsSane(w, u);
      ToldKeeps(u, names[n - 1], before[n - 1].entry, after[n - 1].entry);
      SoundThrough(w, u, w.(table := Informed(w.table, names, before, after, n)));
    }
  }

  lemma SoundIsSane(w: Proxy.World, u: Proxy.World)
    requires AsSound(w, u)
    ensures Proxy.Sane(u)
  {
  }

  /** The same replicas are routable in `u` as in `t`, with the same statuses. */
  ghost predicate SameReplicas(t: Table, u: Table) {
    && u.entries == t.entries && |u.cells| == |t.cells|
    && forall c: nat :: c < |t.cells| ==> u.cells[c].id == t.cells[c].id && u.cells[c].status == t.cells[c].status
  }

  lemma TablesAlike(t: Table, choice: Choice, c: nat, failed: bool, error: Option<string>)
    requires c < |t.cells|
    ensures SameReplicas(t, Release(t, c, failed, error))
    ensures choice.cell < |t.cells| ==> SameReplicas(t, Admit(t, choice)) && SameReplicas(t, Move(t, c, choice, error))
  {
  }

  lemma EnterAlike(w: Proxy.World, i: nat)
    requires Proxy.Sane(w) && i < |w.requests|
    ensures SameReplicas(w.table, Proxy.Enter(w, i).table)
  {
    SelectExact(w.table, {});
    hide Select;
  }

  lemma FinishAlike(w: Proxy.World, i: nat, error: Option<string>, verdict: Proxy.Verdict)
    requires Proxy.Sane(w) && i < |w.requests| && Proxy.Live(w.requests[i])
    ensures Proxy.Last(w.requests[i]).cell < |w.table.cells|
    ensures SameReplicas(w.table, Proxy.Finish(w, i, error, verdict).table)
  {
    assert Proxy.Placed(w.requests[i], w.table.cells);
    TablesAlike(w.table, Choice(0, 0), Proxy.Last(w.requests[i]).cell, error.Some?, error);
    hide Proxy.Sane, Release, SameReplicas;
  }

  lemma RetryAlike(w: Proxy.World, i: nat, verdict: Proxy.Verdict, error: string)
    requires Proxy.Sane(w) && i < |w.requests| && Proxy.Live(w.requests[i])
    ensures Proxy.Last(w.requests[i]).cell < |w.table.cells|
    ensures SameReplicas(w.table, Proxy.Retry(w, i, verdict, error).table)
  {
    FinishAlike(w, i, Some(error), verdict);
    var q := w.requests[i];
    SelectExact(w.table, q.excluded);
    var choice := if |q.attempts| >= 2 then None else Select(w.table, q.excluded);
    if choice.Some? {
      TablesAlike(w.table, choice.value, Proxy.Last(q).cell, true, Some(error));
    }
    hide Proxy.Sane, Select, Move, SameReplicas, Proxy.Finish, Proxy.Judge, Proxy.Leased;
  }

  lemma ServeAlike(w: Proxy.World, s: Proxy.Step)
    requires Proxy.Sane(w) && Proxy.Enabled(w, s) && !Managing(s)
    ensures SameReplicas(w.table, Proxy.Next(w, s).table)
  {
    SameAlike(w.table);
    if s.Arrive? || s.Granting? || s.CancelWait? {
      AdmissionAlike(w, s);
    } else {
      ProgressAlike(w, s);
    }
  }

  lemma SameAlike(t: Table)
    ensures SameReplicas(t, t)
  {
  }

  lemma AdmissionAlike(w: Proxy.World, s: Proxy.Step)
    requires Proxy.Sane(w) && Proxy.Enabled(w, s) && (s.Arrive? || s.Granting? || s.CancelWait?)
    ensures SameReplicas(w.table, Proxy.Next(w, s).table)
  {
    SameAlike(w.table);
    hide SameReplicas, Proxy.Enter, Proxy.Journey, Proxy.Placed, Semaphore.Resume, Semaphore.Leave, Semaphore.Join;
    match s
    case Arrive(i) =>
      EnterAlike(w, i);
      if w.permits.Some? && !w.permits.value.Locked() {
        EnterAlike(w.(permits := Some(Semaphore.TakeFree(w.permits.value))), i);
      }
    case Granting(i) =>
      EnterAlike(w.(permits := Some(Semaphore.Resume(w.permits.value, i)), waiting := w.waiting - 1), i);
    case CancelWait(i) =>
  }

  lemma ProgressAlike(w: Proxy.World, s: Proxy.Step)
    requires Proxy.Sane(w) && Proxy.Enabled(w, s) && (s.Reply? || s.Discarded? || s.StreamEnd? || s.ConnectionClosed?)
    ensures SameReplicas(w.table, Proxy.Next(w, s).table)
  {
    SameAlike(w.table);
    match s
    case Reply(i, reply) => ReplyAlike(w, i, reply);
    case Discarded(i, clean) => DiscardAlike(w, i, clean);
    case StreamEnd(_, _) => hide SameReplicas, Proxy.Sane;
    case ConnectionClosed(i) => FinishAlike(w, i, w.requests[i].error, Proxy.Last(w.requests[i]).verdict);
  }

  lemma ReplyAlike(w: Proxy.World, i: nat, reply: Proxy.Reply)
    requires Proxy.Sane(w) && Proxy.Enabled(w, Proxy.Step.Reply(i, reply))
    ensures SameReplicas(w.table, Proxy.Next(w, Proxy.Step.Reply(i, reply)).table)
  {
    SameAlike(w.table);
    assert Proxy.Live(w.requests[i]);
    hide SameReplicas, Proxy.Finish, Proxy.Retry, Proxy.Sane;
    FinishAlike(w, i, None, Proxy.Abandoned);
    RetryAlike(w, i, Proxy.HttpError, "transport error");
  }

  lemma DiscardAlike(w: Proxy.World, i: nat, clean: bool)
    requires Proxy.Sane(w) && Proxy.Enabled(w, Proxy.Discarded(i, clean))
    ensures SameReplicas(w.table, Proxy.Next(w, Proxy.Discarded(i, clean)).table)
  {
    assert Proxy.Live(w.requests[i]);
    hide SameReplicas, Proxy.Finish, Proxy.Retry, Proxy.Sane;
    FinishAlike(w, i, None, Proxy.Undiscarded);
    RetryAlike(w, i, Proxy.ServerError, "HTTP 5xx");
  }

  /** Whatever is served or decided next, the router goes on knowing what the checker knows. */
  lemma StepKeeps(limits: HealthChecks.Limits, d: State, s: Step)
    requires Joined(limits, d) && Enabled(d, s)
    ensures Joined(limits, Next(limits, d, s))
    ensures forall limit :: Serving.Invariant(d.world, limit) ==> Serving.Invariant(Next(limits, d, s).world, limit)
  {
    match s
    case Serve(serving) => ServeKeeps(limits, d, serving);
    case Supervise(health) => SuperviseKeeps(limits, d, health);
  }

  lemma ServeKeeps(limits: HealthChecks.Limits, d: State, s: Proxy.Step)
    requires Joined(limits, d) && Enabled(d, Serve(s))
    ensures Joined(limits, Next(limits, d, Serve(s)))
    ensures forall limit :: Serving.Invariant(d.world, limit) ==> Serving.Invariant(Proxy.Next(d.world, s), limit)
  {
    var w, u := d.world, Proxy.Next(d.world, s);
    Proxy.StepKeeps(w, s);
    ServeAlike(w, s);
    forall limit | Serving.Invariant(w, limit) ensures Serving.Invariant(u, limit) {
      Serving.LedgerStep(w, s);
      Serving.PermitsStep(w, s, limit);
    }
    assert WellFormed(w.table) && WellFormed(u.table);
    forall id: string ensures StatusOf(u.table, id) == StatusOf(w.table, id) {
      SameStatuses(w.table, u.table, id);
    }
    hide Proxy.Sane, Proxy.Next, Proxy.Enabled, StatusOf, HealthChecks.Kept, Serving.Invariant, SameReplicas, WellFormed;
  }

  lemma SuperviseKeeps(limits: HealthChecks.Limits, d: State, s: HealthChecks.Step)
    requires Joined(limits, d) && Enabled(d, Supervise(s))
    ensures Joined(limits, Next(limits, d, Supervise(s)))
    ensures AsSound(d.world, Next(limits, d, Supervise(s)).world)
  {
    HealthChecks.StepKeeps(limits, d.fleet, s);
    var before, after := d.fleet.slots, HealthChecks.Next(limits, d.fleet, s).slots;
    InformedStatus(d.world.table, d.names, before, after, |d.names|);
    InformedKeeps(d.world, d.names, before, after, |d.names|);
    hide Proxy.Sane, StatusOf, HealthChecks.Kept, HealthChecks.Next, HealthChecks.Enabled, Serving.Invariant, Informed, WellFormed;
  }

  // ------------------------------------------------------------------ whole runs

  ghost predicate Possible(limits: HealthChecks.Limits, d: State, steps: seq<Step>)
    requires Joined(limits, d)
    decreases |steps|
  {
    steps == [] ||
    (Enabled(d, steps[0]) && (StepKeeps(limits, d, steps[0]); Possible(limits, Next(limits, d, steps[0]), steps[1..])))
  }

  ghost function Outcome(limits: HealthChecks.Limits, d: State, steps: seq<Step>): State
    requires Joined(limits, d) && Possible(limits, d, steps)
    decreases |steps|
  {
    if steps == [] then d else (StepKeeps(limits, d, steps[0]); Outcome(limits, Next(limits, d, steps[0]), steps[1..]))
  }

  lemma {:induction false} RunKeeps(limits: HealthChecks.Limits, d: State, steps: seq<Step>)
    requires Joined(limits, d) && Possible(limits, d, steps)
    ensures Joined(limits, Outcome(limits, d, steps))
    ensures forall limit :: Serving.Invariant(d.world, limit) ==> Serving.Invariant(Outcome(limits, d, steps).world, limit)
    decreases |steps|
  {
    hide Joined, Next, Enabled, Serving.Invariant;
    if steps != [] {
      StepKeeps(limits, d, steps[0]);
      RunKeeps(limits, Next(limits, d, steps[0]), steps[1..]);
    }
  }

  /** A deployment whose replicas have just come up, all known to the router as healthy. */
  ghost predicate Initial(d: State) {
    && HealthChecks.Started(d.fleet) && Proxy.Sane(d.world)
    && Mirrors(d.world.table, d.names, d.fleet.slots)
  }

  lemma InitialJoined(limits: HealthChecks.Limits, d: State)
    requires Initial(d)
    ensures Joined(limits, d)
  {
    HealthChecks.StartedKept(limits, d.fleet);
  }

  /**
   * However deaths, probes, restarts and requests interleave, a request only ever gets a lease on a
   * replica that the checker holds to be healthy: never on one found dead whose replacement has not
   * passed readiness.
   */
  lemma DeadNeverLeased(limits: HealthChecks.Limits, d: State, steps: seq<Step>, s: Proxy.Step, i: nat)
    requires Joined(limits, d) && Possible(limits, d, steps)
    requires
      var e := Outcome(limits, d, steps);
      && Enabled(e, Serve(s)) && Proxy.Sane(e.world) && i < |e.world.requests|
      && |Proxy.Next(e.world, s).requests[i].attempts| > |e.world.requests[i].attempts|
    ensures
      var e := Outcome(limits, d, steps);
      var leased := Proxy.Last(Proxy.Next(e.world, s).requests[i]).id;
      && (exists k :: 0 <= k < |e.names| && k < |e.fleet.slots| && e.names[k] == leased
                   && e.fleet.slots[k].entry == Some(Healthy) && !e.fleet.slots[k].dead)
      && forall k :: 0 <= k < |e.names| && k < |e.fleet.slots| && e.fleet.slots[k].dead ==> e.names[k] != leased
  {
    RunKeeps(limits, d, steps);
    var e := Outcome(limits, d, steps);
    hide Outcome, Possible;
    Serving.AttemptsAreEarned(e.world, s, i);
    ChosenIsLive(limits, e, Proxy.Last(Proxy.Next(e.world, s).requests[i]), e.world.requests[i].excluded);
  }

  lemma ChosenIsLive(limits: HealthChecks.Limits, e: State, a: Proxy.Attempt, excluded: set<string>)
    requires Joined(limits, e) && Serving.Chosen(e.world.table, excluded, a)
    ensures
      && (exists k :: 0 <= k < |e.names| && k < |e.fleet.slots| && e.names[k] == a.id
                   && e.fleet.slots[k].entry == Some(Healthy) && !e.fleet.slots[k].dead)
      && forall k :: 0 <= k < |e.names| && k < |e.fleet.slots| && e.fleet.slots[k].dead ==> e.names[k] != a.id
  {
    var t := e.world.table;
    var p :| 0 <= p < |t.entries| && t.entries[p] == a.cell;
    StatusAt(t, p);
    hide StatusOf, WellFormed;
    var k :| 0 <= k < |e.names| && e.names[k] == a.id;
    assert HealthChecks.SlotKept(limits, e.fleet.slots[k], e.fleet.now);
  }
}

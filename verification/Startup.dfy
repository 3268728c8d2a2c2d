/**
 * Starting the replicas of one plan with their launches interleaved, one await at a time, and what
 * is left behind when the start fails or is cancelled.
 */
module Startup {
  import opened Common
  import opened Routing
  import opened Ports

  /**
   * Where one launch is: no task yet, task not yet run, starting its process, waiting for it to
   * serve, terminating it (and then to be reported stopped, or not), serving, failed, or cut short
   * while terminating it.
   */
  datatype Stage =
    | Unborn | Created | Launching(port: int) | Readying(port: int, process: nat)
    | Terminating(port: int, process: nat, report: bool)
    | Up(port: int, process: nat) | Failed | Deserted(process: nat)

  /** Where `start` itself is: with the first launch, asleep before creating a task, gathering, cleaning up, done. */
  datatype Starter = First | Asleep(next: nat) | Gathering | Cleaning | Over(ok: bool)

  /** Of the allocator's reservations, `others` belong to somebody else and `taken` are on the set's list. */
  datatype World = World(
    range: Range, cursor: int, reserved: set<int>, others: set<int>, taken: seq<int>,
    stages: seq<Stage>, entries: map<nat, Health>, processes: seq<bool>,
    starter: Starter, replicas: set<nat>, staggered: bool, cancelled: bool)

  datatype Readiness = Ready | NotReady | Raises

  datatype Step =
    | Begin(i: nat, free: int -> bool) | Launched(i: nat, ok: bool) | Answered(i: nat, readiness: Readiness) | Ended(i: nat)
    | FirstSettles | Wake | Gather | Clean | Cancel
    | OthersTake(port: int) | OthersDrop(port: int)

  // ------------------------------------------------------------------ the steps

  predicate Settled(s: Stage) {
    s.Up? || s.Failed? || s.Deserted?
  }

  predicate AllSettled(stages: seq<Stage>) {
    forall i :: 0 <= i < |stages| ==> Settled(stages[i])
  }

  predicate AllUp(stages: seq<Stage>) {
    forall i :: 0 <= i < |stages| ==> stages[i].Up?
  }

  function PortOf(s: Stage): Option<int> {
    if s.Launching? || s.Readying? || s.Terminating? || s.Up? then Some(s.port) else None
  }

  function ProcessOf(s: Stage): Option<nat> {
    if s.Readying? || s.Terminating? || s.Up? || s.Deserted? then Some(s.process) else None
  }

  /** What cancelling a launch's task does to it. */
  function Interrupted(s: Stage): Stage {
    match s
    case Created => Failed
    case Launching(_) => Failed
    case Readying(port, process) => Terminating(port, process, false)
    case Terminating(_, process, _) => Deserted(process)
    case _ => s
  }

  function Put(w: World, i: nat, s: Stage): World
    requires i < |w.stages|
  {
    w.(stages := w.stages[i := s])
  }

  /** Tasks for the launches from `from` and below `to`. */
  function Spawned(stages: seq<Stage>, from: nat, to: nat): seq<Stage> {
    seq(|stages|, i requires 0 <= i < |stages| => if from <= i < to then Created else stages[i])
  }

  function AllInterrupted(stages: seq<Stage>): seq<Stage> {
    seq(|stages|, i requires 0 <= i < |stages| => Interrupted(stages[i]))
  }

  /** The first replica serves: create tasks for the others, pausing in between if so configured. */
  function Spread(w: World): World {
    var count := |w.stages|;
    var u := w.(replicas := {0});
    if count <= 1 then u.(starter := Over(true))
    else if w.staggered && count > 2 then u.(stages := Spawned(w.stages, 1, 2), starter := Asleep(2))
    else u.(stages := Spawned(w.stages, 1, count), starter := Gathering)
  }

  function Positions(stages: seq<Stage>): set<nat> {
    set i: nat | i < |stages| && stages[i].Up?
  }

  predicate Belongs(w: World, process: nat) {
    exists i :: i in w.replicas && i < |w.stages| && ProcessOf(w.stages[i]) == Some(process)
  }

  /** `stop`: terminate the replicas listed, forget their entries, release the ports listed. */
  function Stop(w: World): World {
    w.(processes := seq(|w.processes|, p requires 0 <= p < |w.processes| => w.processes[p] && !Belongs(w, p)),
       entries := w.entries - w.replicas,
       reserved := w.reserved - SetOf(w.taken), taken := [], starter := Over(false))
  }

  predicate Enabled(w: World, s: Step) {
    match s
    case Begin(i, _) => i < |w.stages| && w.stages[i].Created?
    case Launched(i, _) => i < |w.stages| && w.stages[i].Launching?
    case Answered(i, _) => i < |w.stages| && w.stages[i].Readying?
    case Ended(i) => i < |w.stages| && w.stages[i].Terminating?
    case FirstSettles => w.starter.First? && w.stages != [] && Settled(w.stages[0])
    case Wake => w.starter.Asleep? && w.starter.next < |w.stages|
    case Gather => w.starter.Gathering? && AllSettled(w.stages)
    case Clean => w.starter.Cleaning?
    case Cancel => w.stages != [] && (w.starter.Asleep? || w.starter.Gathering? || (w.starter.First? && !Settled(w.stages[0])))
    case OthersTake(port) => port !in w.reserved
    case OthersDrop(port) => port in w.others
  }

  /** A launch's task runs: reserve a port. */
  function Begun(w: World, i: nat, free: int -> bool): World
    requires i < |w.stages|
  {
    match Probe(w.range, w.cursor, Max(w.range.Span(), 0), w.reserved, free)
    case None => Put(w, i, Failed)
    case Some(port) =>
      Put(w, i, Launching(port)).(
        cursor := w.range.Following(port), reserved := w.reserved + {port}, taken := w.taken + [port])
  }

  /** The process of a launch has started, or has not. */
  function Came(w: World, i: nat, ok: bool): World
    requires i < |w.stages| && w.stages[i].Launching?
  {
    if !ok then Put(w, i, Failed)
    else
      Put(w, i, Readying(w.stages[i].port, |w.processes|)).(
        processes := w.processes + [true], entries := w.entries[i := Starting])
  }

  function Judged(w: World, i: nat, readiness: Readiness): World
    requires i < |w.stages| && w.stages[i].Readying?
  {
    var port, process := w.stages[i].port, w.stages[i].process;
    if readiness.Ready? then Put(w, i, Up(port, process)).(entries := w.entries[i := Healthy])
    else Put(w, i, Terminating(port, process, readiness.NotReady?))
  }

  function Buried(w: World, i: nat): World
    requires i < |w.stages| && w.stages[i].Terminating?
  {
    var process := w.stages[i].process;
    Put(w, i, Failed).(
      processes := if process < |w.processes| then w.processes[process := false] else w.processes,
      entries := if w.stages[i].report then w.entries[i := Stopped] else w.entries)
  }

  function Woken(w: World): World
    requires w.starter.Asleep?
  {
    var next := w.starter.next;
    w.(stages := Spawned(w.stages, next, next + 1),
       starter := if next + 1 == |w.stages| then Gathering else Asleep(next + 1))
  }

  /** All launches are over: the results are looked at, unless the start was cancelled meanwhile. */
  function Gathered(w: World): World {
    if w.cancelled then w.(starter := Cleaning)
    else w.(replicas := Positions(w.stages), starter := if AllUp(w.stages) then Over(true) else Cleaning)
  }

  /** Whatever `start` awaits is cancelled with it: the first launch, all the others, or a mere pause. */
  function Cancelled(w: World): World
    requires w.stages != []
  {
    match w.starter
    case First => Put(w, 0, Interrupted(w.stages[0])).(cancelled := true)
    case Gathering => w.(stages := AllInterrupted(w.stages), cancelled := true)
    case _ => w.(starter := Cleaning, cancelled := true)
  }

  function Next(w: World, s: Step): World
    requires Enabled(w, s)
  {
    match s
    case Begin(i, free) => Begun(w, i, free)
    case Launched(i, ok) => Came(w, i, ok)
    case Answered(i, readiness) => Judged(w, i, readiness)
    case Ended(i) => Buried(w, i)
    case FirstSettles => if w.stages[0].Up? then Spread(w) else w.(starter := Cleaning)
    case Wake => Woken(w)
    case Gather => Gathered(w)
    case Clean => Stop(w)
    case Cancel => Cancelled(w)
    case OthersTake(port) => w.(reserved := w.reserved + {port}, others := w.others + {port})
    case OthersDrop(port) => w.(reserved := w.reserved - {port}, others := w.others - {port})
  }

  // ------------------------------------------------------------------ what every step keeps

  /** Every reservation of the set is on its list, once, and known to the allocator. */
  ghost predicate PortsKept(w: World) {
    && w.range.Contains(w.cursor) && Distinct(w.taken)
    && SetOf(w.taken) !! w.others && w.reserved == w.others + SetOf(w.taken)
  }

  /** Until the set is stopped, every launch that holds a port holds one of its own, still reserved. */
  ghost predicate PortsApart(stages: seq<Stage>, taken: seq<int>) {
    && (forall i :: 0 <= i < |stages| && PortOf(stages[i]).Some? ==> PortOf(stages[i]).value in taken)
    && (forall i, j :: 0 <= i < j < |stages| && PortOf(stages[i]).Some? ==> PortOf(stages[i]) != PortOf(stages[j]))
  }

  predicate Owned(stages: seq<Stage>, process: nat) {
    exists i :: 0 <= i < |stages| && ProcessOf(stages[i]) == Some(process)
  }

  /** Every running process is one launch's own, and exactly the processes of launches not stopped run. */
  ghost predicate ProcessesKept(stages: seq<Stage>, processes: seq<bool>, stopped: set<nat>) {
    && (forall i :: 0 <= i < |stages| && ProcessOf(stages[i]).Some? ==>
          ProcessOf(stages[i]).value < |processes| && (processes[ProcessOf(stages[i]).value] <==> i !in stopped))
    && (forall i, j :: 0 <= i < j < |stages| && ProcessOf(stages[i]).Some? ==> ProcessOf(stages[i]) != ProcessOf(stages[j]))
    && (forall p :: 0 <= p < |processes| && processes[p] ==> Owned(stages, p))
  }

  predicate HealthyAt(entries: map<nat, Health>, i: nat) {
    i in entries && entries[i].Healthy?
  }

  predicate UpAt(stages: seq<Stage>, i: nat) {
    i < |stages| && stages[i].Up?
  }

  /** Exactly the launches that serve have a healthy entry, unless stopped. */
  ghost predicate EntriesKept(stages: seq<Stage>, entries: map<nat, Health>, stopped: set<nat>) {
    forall i: nat :: HealthyAt(entries, i) <==> UpAt(stages, i) && i !in stopped
  }

  /** Nothing more will come of a launch, and `start` knows whether it serves. */
  predicate Known(s: Stage, listed: bool) {
    s.Unborn? || s.Failed? || (s.Up? && listed)
  }

  /** How far `start` has come, and what that says of the launches. */
  ghost predicate ShapeKept(w: World) {
    && |w.stages| >= 1 && !w.stages[0].Unborn?
    && (forall i: nat :: i in w.replicas ==> UpAt(w.stages, i))
    && (!w.cancelled ==> forall i :: 0 <= i < |w.stages| ==> !w.stages[i].Deserted?)
    && match w.starter
       case First => w.replicas == {} && forall i :: 1 <= i < |w.stages| ==> w.stages[i].Unborn?
       case Asleep(next) =>
         && w.replicas == {0} && 2 <= next < |w.stages|
         && forall i :: 0 <= i < |w.stages| ==> (w.stages[i].Unborn? <==> next <= i)
       case Gathering => w.replicas == {0} && forall i :: 0 <= i < |w.stages| ==> !w.stages[i].Unborn?
       case Over(true) => forall i :: 0 <= i < |w.stages| ==> w.stages[i].Up? && i in w.replicas
       case Cleaning => w.cancelled || forall i :: 0 <= i < |w.stages| ==> Known(w.stages[i], i in w.replicas)
       case Over(false) =>
         || w.cancelled
         || (w.taken == [] && forall i :: 0 <= i < |w.stages| ==> Known(w.stages[i], i in w.replicas))
  }

  function Ceased(w: World): set<nat> {
    if w.starter == Over(false) then w.replicas else {}
  }

  ghost predicate Kept(w: World) {
    && PortsKept(w) && (w.starter != Over(false) ==> PortsApart(w.stages, w.taken))
    && ProcessesKept(w.stages, w.processes, Ceased(w)) && EntriesKept(w.stages, w.entries, Ceased(w))
    && ShapeKept(w)
  }

  // ------------------------------------------------------------------ ports

  lemma PortsStep(w: World, s: Step)
    requires PortsKept(w) && Enabled(w, s)
    ensures PortsKept(Next(w, s))
  {
    match s
    case Begin(i, free) =>
      ProbeNearest(w.range, w.cursor, w.range.Span(), w.reserved, free);
      var port := Probe(w.range, w.cursor, w.range.Span(), w.reserved, free);
      if port.Some? {
        assert SetOf(w.taken + [port.value]) == SetOf(w.taken) + {port.value};
        assert port.value !in SetOf(w.taken);
      }
    case Clean => assert SetOf<int>([]) == {};
    case _ =>
  }

  /** Launches that let their ports go or keep them stay apart. */
  lemma ApartLoosens(stages: seq<Stage>, taken: seq<int>, after: seq<Stage>)
    requires PortsApart(stages, taken) && |after| == |stages|
    requires forall i :: 0 <= i < |stages| ==> PortOf(after[i]).None? || PortOf(after[i]) == PortOf(stages[i])
    ensures PortsApart(after, taken)
  {
  }

  lemma ApartBegins(stages: seq<Stage>, taken: seq<int>, i: nat, port: int)
    requires PortsApart(stages, taken) && i < |stages| && port !in taken
    ensures PortsApart(stages[i := Launching(port)], taken + [port])
  {
  }

  lemma ApartStep(w: World, s: Step)
    requires PortsKept(w) && PortsApart(w.stages, w.taken) && Enabled(w, s) && !s.Clean?
    ensures PortsApart(Next(w, s).stages, Next(w, s).taken)
  {
    if s.Begin? {
      ProbeNearest(w.range, w.cursor, w.range.Span(), w.reserved, s.free);
      var port := Probe(w.range, w.cursor, w.range.Span(), w.reserved, s.free);
      if port.Some? {
        assert port.value !in SetOf(w.taken);
        ApartBegins(w.stages, w.taken, s.i, port.value);
      } else {
        ApartLoosens(w.stages, w.taken, w.stages[s.i := Failed]);
      }
    } else {
      hide Probe, PortsApart;
      ApartLoosens(w.stages, w.taken, Next(w, s).stages);
    }
  }

  // ------------------------------------------------------------------ processes

  lemma ProcessesSame(stages: seq<Stage>, processes: seq<bool>, stopped: set<nat>, after: seq<Stage>)
    requires ProcessesKept(stages, processes, stopped) && |after| == |stages|
    requires forall i :: 0 <= i < |stages| ==> ProcessOf(after[i]) == ProcessOf(stages[i])
    ensures ProcessesKept(after, processes, stopped)
  {
    forall p: nat | Owned(stages, p) ensures Owned(after, p) {
      var i :| 0 <= i < |stages| && ProcessOf(stages[i]) == Some(p);
      assert ProcessOf(after[i]) == Some(p);
    }
  }

  lemma ProcessesLaunch(stages: seq<Stage>, processes: seq<bool>, stopped: set<nat>, i: nat, port: int)
    requires ProcessesKept(stages, processes, stopped) && i < |stages| && ProcessOf(stages[i]).None? && i !in stopped
    ensures ProcessesKept(stages[i := Readying(port, |processes|)], processes + [true], stopped)
  {
    var after, more := stages[i := Readying(port, |processes|)], processes + [true];
    assert ProcessOf(after[i]) == Some(|processes|);
    forall p | 0 <= p < |more| && more[p] ensures Owned(after, p) {
      if p < |processes| {
        assert processes[p];
        var j :| 0 <= j < |stages| && ProcessOf(stages[j]) == Some(p);
        assert ProcessOf(after[j]) == Some(p);
      }
    }
  }

  lemma ProcessesEnd(stages: seq<Stage>, processes: seq<bool>, stopped: set<nat>, i: nat)
    requires ProcessesKept(stages, processes, stopped) && i < |stages| && stages[i].Terminating?
    ensures stages[i].process < |processes|
    ensures ProcessesKept(stages[i := Failed], processes[stages[i].process := false], stopped)
  {
    var process := stages[i].process;
    assert ProcessOf(stages[i]) == Some(process);
    var after, fewer := stages[i := Failed], processes[process := false];
    forall p | 0 <= p < |fewer| && fewer[p] ensures Owned(after, p) {
      assert processes[p] && p != process;
      var j :| 0 <= j < |stages| && ProcessOf(stages[j]) == Some(p);
      assert ProcessOf(after[j]) == Some(p);
    }
  }

  lemma ProcessesStop(w: World)
    requires ProcessesKept(w.stages, w.processes, {})
    ensures ProcessesKept(w.stages, Stop(w).processes, w.replicas)
  {
    var after := Stop(w).processes;
    forall i | 0 <= i < |w.stages| && ProcessOf(w.stages[i]).Some?
      ensures after[ProcessOf(w.stages[i]).value] <==> i !in w.replicas
    {
      var p := ProcessOf(w.stages[i]).value;
      assert i !in w.replicas ==> !Belongs(w, p);
    }
  }

  lemma ProcessesStep(w: World, s: Step)
    requires ProcessesKept(w.stages, w.processes, Ceased(w)) && ShapeKept(w) && Enabled(w, s)
    ensures ProcessesKept(Next(w, s).stages, Next(w, s).processes, Ceased(Next(w, s)))
  {
    var u := Next(w, s);
    if s.Clean? {
      ProcessesStop(w);
    } else if s.Launched? && s.ok {
      assert s.i !in Ceased(w);
      ProcessesLaunch(w.stages, w.processes, Ceased(w), s.i, w.stages[s.i].port);
    } else if s.Ended? {
      ProcessesEnd(w.stages, w.processes, Ceased(w), s.i);
    } else {
      ProcessesAlone(w, s);
      hide *;
      ProcessesSame(w.stages, w.processes, Ceased(w), u.stages);
    }
  }

  lemma ProcessesAlone(w: World, s: Step)
    requires ShapeKept(w) && Enabled(w, s) && !s.Clean? && !s.Ended? && (s.Launched? ==> !s.ok)
    ensures
      var u := Next(w, s);
      && |u.stages| == |w.stages| && u.processes == w.processes && Ceased(u) == Ceased(w)
      && forall i :: 0 <= i < |w.stages| ==> ProcessOf(u.stages[i]) == ProcessOf(w.stages[i])
  {
    if OfLaunch(s) {
      hide Probe, ShapeKept;
    } else {
      StartAlone(w, s);
      hide *;
    }
  }

  /** A step of `start` itself that is not the cleaning up ends or begins nobody's process or service. */
  lemma StartAlone(w: World, s: Step)
    requires ShapeKept(w) && Enabled(w, s) && !s.Clean? && !OfLaunch(s)
    ensures
      var u := Next(w, s);
      && |u.stages| == |w.stages| && u.processes == w.processes && u.entries == w.entries && Ceased(u) == Ceased(w)
      && (forall i :: 0 <= i < |w.stages| ==> ProcessOf(u.stages[i]) == ProcessOf(w.stages[i]))
      && (forall i: nat :: UpAt(u.stages, i) <==> UpAt(w.stages, i))
  {
    if s.FirstSettles? || s.Wake? {
      hide Interrupted, AllInterrupted, Stop, Gathered, Cancelled, Positions;
    } else {
      hide ShapeKept, Spread, Spawned, Stop, Positions;
    }
  }

  // ------------------------------------------------------------------ entries

  lemma EntriesSame(stages: seq<Stage>, entries: map<nat, Health>, stopped: set<nat>, after: seq<Stage>, changed: map<nat, Health>)
    requires EntriesKept(stages, entries, stopped)
    requires forall i: nat :: (UpAt(after, i) <==> UpAt(stages, i)) && (HealthyAt(changed, i) <==> HealthyAt(entries, i))
    ensures EntriesKept(after, changed, stopped)
  {
  }

  lemma EntriesStep(w: World, s: Step)
    requires EntriesKept(w.stages, w.entries, Ceased(w)) && ShapeKept(w) && Enabled(w, s)
    ensures EntriesKept(Next(w, s).stages, Next(w, s).entries, Ceased(Next(w, s)))
  {
    var u := Next(w, s);
    if s.Clean? {
      assert forall i: nat :: HealthyAt(u.entries, i) <==> HealthyAt(w.entries, i) && i !in w.replicas;
    } else if s.Answered? && s.readiness.Ready? {
      assert !UpAt(w.stages, s.i) && s.i !in Ceased(w);
      assert forall i: nat :: (UpAt(u.stages, i) <==> UpAt(w.stages, i) || i == s.i)
                           && (HealthyAt(u.entries, i) <==> HealthyAt(w.entries, i) || i == s.i);
    } else {
      EntriesAlone(w, s);
      hide *;
      EntriesSame(w.stages, w.entries, Ceased(w), u.stages, u.entries);
    }
  }

  lemma EntriesAlone(w: World, s: Step)
    requires EntriesKept(w.stages, w.entries, Ceased(w)) && ShapeKept(w) && Enabled(w, s)
    requires !s.Clean? && !(s.Answered? && s.readiness.Ready?)
    ensures
      var u := Next(w, s);
      && Ceased(u) == Ceased(w)
      && forall i: nat :: (UpAt(u.stages, i) <==> UpAt(w.stages, i)) && (HealthyAt(u.entries, i) <==> HealthyAt(w.entries, i))
  {
    if OfLaunch(s) {
      assert !UpAt(w.stages, s.i);
      assert !HealthyAt(w.entries, s.i);
      hide Probe, EntriesKept, ShapeKept;
    } else {
      StartAlone(w, s);
      hide *;
    }
  }

  predicate OfLaunch(s: Step) {
    s.Begin? || s.Launched? || s.Answered? || s.Ended?
  }

  // ------------------------------------------------------------------ the shape

  lemma ShapeStep(w: World, s: Step)
    requires ShapeKept(w) && Enabled(w, s)
    ensures ShapeKept(Next(w, s))
  {
    match s
    case Begin(i, free) => LaunchShape(w, s);
    case Launched(i, ok) => LaunchShape(w, s);
    case Answered(i, readiness) => LaunchShape(w, s);
    case Ended(i) => LaunchShape(w, s);
    case FirstSettles => SpreadShape(w);
    case Wake => WakeShape(w);
    case Gather => GatherShape(w);
    case Clean => hide UpAt, Known;
    case Cancel => CancelShape(w);
    case _ => hide UpAt, Known;
  }

  lemma SpreadShape(w: World)
    requires ShapeKept(w) && Enabled(w, FirstSettles)
    ensures ShapeKept(Next(w, FirstSettles))
  {
  }

  lemma WakeShape(w: World)
    requires ShapeKept(w) && Enabled(w, Wake)
    ensures ShapeKept(Woken(w))
  {
  }

  lemma GatherShape(w: World)
    requires ShapeKept(w) && Enabled(w, Gather)
    ensures ShapeKept(Gathered(w))
  {
  }

  lemma CancelShape(w: World)
    requires ShapeKept(w) && Enabled(w, Cancel)
    ensures ShapeKept(Cancelled(w))
  {
  }

  lemma LaunchShape(w: World, s: Step)
    requires ShapeKept(w) && Enabled(w, s) && OfLaunch(s)
    ensures ShapeKept(Next(w, s))
  {
    var u := Next(w, s);
    var i := s.i;
    assert u.stages == w.stages[i := u.stages[i]] && !u.stages[i].Unborn? && !u.stages[i].Deserted?;
    assert u.starter == w.starter && u.replicas == w.replicas && u.cancelled == w.cancelled;
    assert !w.cancelled && !w.starter.First? && !w.starter.Asleep? && !w.starter.Gathering? ==> false by {
      assert !Known(w.stages[i], i in w.replicas);
    }
    hide Next, Probe;
  }

  lemma StepKeeps(w: World, s: Step)
    requires Kept(w) && Enabled(w, s)
    ensures Kept(Next(w, s))
  {
    PortsStep(w, s);
    if w.starter != Over(false) && !s.Clean? {
      ApartStep(w, s);
    }
    ProcessesStep(w, s);
    EntriesStep(w, s);
    ShapeStep(w, s);
    assert w.starter == Over(false) ==> Next(w, s).starter == Over(false);
    hide PortsKept, PortsApart, ProcessesKept, EntriesKept, ShapeKept, Probe, Stop;
  }

  // ------------------------------------------------------------------ whole runs

  ghost predicate Possible(w: World, steps: seq<Step>)
    decreases |steps|
  {
    steps == [] || (Enabled(w, steps[0]) && Possible(Next(w, steps[0]), steps[1..]))
  }

  ghost function Outcome(w: World, steps: seq<Step>): World
    requires Possible(w, steps)
    decreases |steps|
  {
    if steps == [] then w else Outcome(Next(w, steps[0]), steps[1..])
  }

  /** A start about to happen. */
  predicate Initial(w: World) {
    && w.range.Contains(w.cursor) && w.taken == [] && w.reserved == w.others
    && w.stages != [] && w.stages[0].Created? && (forall i :: 1 <= i < |w.stages| ==> w.stages[i].Unborn?)
    && w.entries == map[] && w.processes == [] && w.starter.First? && w.replicas == {} && !w.cancelled
  }

  lemma InitialKept(w: World)
    requires Initial(w)
    ensures Kept(w)
  {
  }

  lemma {:induction false} RunKeeps(w: World, steps: seq<Step>)
    requires Kept(w) && Possible(w, steps)
    ensures Kept(Outcome(w, steps))
    decreases |steps|
  {
    hide Kept, Next, Enabled;
    if steps != [] {
      StepKeeps(w, steps[0]);
      RunKeeps(Next(w, steps[0]), steps[1..]);
    }
  }

  /** Nothing of the set runs or is about to, nothing is routed to, and its ports are back. */
  ghost predicate LeftNothing(w: World) {
    && (forall p :: 0 <= p < |w.processes| ==> !w.processes[p])
    && (forall i: nat :: !HealthyAt(w.entries, i))
    && (forall i :: 0 <= i < |w.stages| ==> w.stages[i].Unborn? || Settled(w.stages[i]))
    && w.taken == [] && w.reserved == w.others
  }

  /** Every replica is listed, serves on a port of its own that stays reserved, runs and is routed to. */
  ghost predicate AllServe(w: World) {
    && (forall i :: 0 <= i < |w.stages| ==>
          && w.stages[i].Up? && i in w.replicas && HealthyAt(w.entries, i)
          && w.stages[i].port in w.taken && w.stages[i].port in w.reserved
          && w.stages[i].process < |w.processes| && w.processes[w.stages[i].process])
    && (forall i, j :: 0 <= i < j < |w.stages| && w.stages[i].Up? && w.stages[j].Up? ==>
          w.stages[i].port != w.stages[j].port && w.stages[i].process != w.stages[j].process)
  }

  /** Cleaning up leaves nothing exactly when every launch has failed, was never made, or is listed as a replica. */
  lemma CleanLeaves(w: World)
    requires Kept(w) && w.starter.Cleaning?
    ensures Kept(Stop(w)) && Stop(w).taken == [] && Stop(w).reserved == w.others
    ensures LeftNothing(Stop(w)) <==> forall i :: 0 <= i < |w.stages| ==> Known(w.stages[i], i in w.replicas)
  {
    var u := Stop(w);
    StepKeeps(w, Clean);
    assert u.taken == [] && u.starter == Over(false) && u.stages == w.stages && u.replicas == w.replicas;
    assert u.reserved == w.others by {
      assert PortsKept(w);
    }
    hide Stop, Kept, LeftNothing, Known;
    if forall i :: 0 <= i < |w.stages| ==> Known(w.stages[i], i in w.replicas) {
      KnownLeavesNothing(u);
    } else {
      var i: nat :| i < |w.stages| && !Known(w.stages[i], i in w.replicas);
      UnknownLeaves(u, i);
    }
  }

  lemma KnownLeavesNothing(w: World)
    requires Kept(w) && w.starter == Over(false) && w.taken == []
    requires forall i :: 0 <= i < |w.stages| ==> Known(w.stages[i], i in w.replicas)
    ensures LeftNothing(w)
  {
    assert SetOf<int>([]) == {};
    assert forall p: nat :: p < |w.processes| ==> !(w.processes[p] && Owned(w.stages, p));
  }

  /** A launch nobody knows the end of is under way, running, or still routed to. */
  lemma UnknownLeaves(w: World, i: nat)
    requires Kept(w) && w.starter == Over(false) && i < |w.stages| && !Known(w.stages[i], i in w.replicas)
    ensures !LeftNothing(w)
  {
    if w.stages[i].Deserted? {
      assert ProcessOf(w.stages[i]).Some?;
    } else if w.stages[i].Up? {
      assert UpAt(w.stages, i);
      assert HealthyAt(w.entries, i);
    }
  }

  lemma {:induction false} NeverCancelled(w: World, steps: seq<Step>)
    requires Possible(w, steps) && Cancel !in steps
    ensures |Outcome(w, steps).stages| == |w.stages| && Outcome(w, steps).cancelled == w.cancelled
    decreases |steps|
  {
    if steps != [] {
      OneStep(w, steps[0]);
      hide Next, Enabled;
      NeverCancelled(Next(w, steps[0]), steps[1..]);
    }
  }

  lemma OneStep(w: World, s: Step)
    requires Enabled(w, s)
    ensures |Next(w, s).stages| == |w.stages| && (!s.Cancel? ==> Next(w, s).cancelled == w.cancelled)
  {
    hide Probe;
  }

  /**
   * All or nothing, however the launches interleave and whatever becomes of each: a start that is
   * not cancelled ends with every replica serving, or with nothing running and every port back.
   */
  lemma AllOrNothing(w: World, steps: seq<Step>)
    requires Initial(w) && Possible(w, steps) && Cancel !in steps && Outcome(w, steps).starter.Over?
    ensures
      var after := Outcome(w, steps);
      |after.stages| == |w.stages| && if after.starter.ok then AllServe(after) else LeftNothing(after)
  {
    InitialKept(w);
    RunKeeps(w, steps);
    NeverCancelled(w, steps);
    var after := Outcome(w, steps);
    hide Outcome, Possible, Initial;
    if after.starter.ok {
      OverServes(after);
    } else {
      KnownLeavesNothing(after);
    }
  }

  lemma OverServes(w: World)
    requires Kept(w) && w.starter == Over(true)
    ensures AllServe(w)
  {
    forall i | 0 <= i < |w.stages|
      ensures
        && w.stages[i].Up? && i in w.replicas && HealthyAt(w.entries, i)
        && w.stages[i].port in w.taken && w.stages[i].port in w.reserved
        && w.stages[i].process < |w.processes| && w.processes[w.stages[i].process]
    {
      assert UpAt(w.stages, i) && PortOf(w.stages[i]).Some? && ProcessOf(w.stages[i]).Some?;
    }
    forall i, j | 0 <= i < j < |w.stages| && w.stages[i].Up? && w.stages[j].Up?
      ensures w.stages[i].port != w.stages[j].port && w.stages[i].process != w.stages[j].process
    {
      assert PortOf(w.stages[i]) != PortOf(w.stages[j]) && ProcessOf(w.stages[i]) != ProcessOf(w.stages[j]);
    }
  }

  // ------------------------------------------------------------------ a start that is cancelled

  /** What a launch may be, some time after it was interrupted. */
  predicate After(before: Stage, now: Stage) {
    match before
    case Created => now.Failed?
    case Launching(_) => now.Failed?
    case Readying(port, process) => now == Terminating(port, process, false) || now.Failed?
    case Terminating(_, process, _) => now == Deserted(process)
    case _ => now == before
  }

  ghost predicate Winding(w: World, u: World) {
    && u.cancelled && |u.stages| == |w.stages| && u.replicas == w.replicas
    && (forall i :: 0 <= i < |w.stages| ==> After(w.stages[i], u.stages[i]))
    && (u.starter == w.starter
        || ((u.starter.Cleaning? || u.starter == Over(false))
            && forall i :: 0 <= i < |w.stages| ==> u.stages[i].Unborn? || Settled(u.stages[i])))
    && (u.starter == Over(false) ==> u.taken == [])
  }

  predicate Cancellable(w: World) {
    Enabled(w, Cancel) && !w.cancelled && !w.starter.Asleep?
  }

  lemma WindingStarts(w: World)
    requires Kept(w) && Cancellable(w)
    ensures Winding(w, Next(w, Cancel))
  {
  }

  lemma WindingStep(w: World, u: World, s: Step)
    requires Kept(w) && Cancellable(w) && Winding(w, u) && Enabled(u, s) && !s.Cancel?
    ensures Winding(w, Next(u, s))
  {
    hide Kept, Probe;
    if OfLaunch(s) {
      var i, v := s.i, Next(u, s);
      assert v.stages == u.stages[i := v.stages[i]];
      assert v.starter == u.starter && v.replicas == u.replicas && v.cancelled == u.cancelled;
      assert After(w.stages[i], v.stages[i]);
      assert After(w.stages[i], u.stages[i]);
      hide Next, Enabled, After;
    } else {
      WindingStart(w, u, s);
    }
  }

  lemma WindingStart(w: World, u: World, s: Step)
    requires Kept(w) && Cancellable(w) && Winding(w, u) && Enabled(u, s) && !s.Cancel? && !OfLaunch(s)
    ensures Winding(w, Next(u, s))
  {
    assert Kept(w) ==> ShapeKept(w);
    hide Kept;
  }

  lemma {:induction false} WindingRun(w: World, u: World, steps: seq<Step>)
    requires Kept(w) && Cancellable(w) && Winding(w, u) && Possible(u, steps) && Cancel !in steps
    ensures Winding(w, Outcome(u, steps))
    decreases |steps|
  {
    if steps != [] {
      WindingStep(w, u, steps[0]);
      hide Next, Enabled, Winding, Kept, Cancellable;
      WindingRun(w, Next(u, steps[0]), steps[1..]);
    }
  }

  /**
   * A start cancelled with its first launch, or while it gathers the others, leaves something behind
   * exactly when, at that moment, a launch was being terminated or one of the others already served:
   * the results of the gathering are lost with it, so nobody knows of that replica.
   */
  lemma CancelLeaves(w: World, steps: seq<Step>)
    requires Kept(w) && Cancellable(w) && Possible(Next(w, Cancel), steps) && Cancel !in steps
    requires Outcome(Next(w, Cancel), steps).starter.Over?
    ensures Outcome(Next(w, Cancel), steps).starter == Over(false)
    ensures LeftNothing(Outcome(Next(w, Cancel), steps)) <==>
              forall i :: 0 <= i < |w.stages| ==> !w.stages[i].Terminating? && (w.stages[i].Up? ==> i in w.replicas)
  {
    WindingStarts(w);
    StepKeeps(w, Cancel);
    WindingRun(w, Next(w, Cancel), steps);
    RunKeeps(Next(w, Cancel), steps);
    var u := Outcome(Next(w, Cancel), steps);
    hide Outcome, Possible, Next;
    WoundUp(w, u);
  }

  lemma WoundUp(w: World, u: World)
    requires Kept(w) && Cancellable(w) && Winding(w, u) && Kept(u) && u.starter.Over?
    ensures u.starter == Over(false)
    ensures LeftNothing(u) <==>
              forall i :: 0 <= i < |w.stages| ==> !w.stages[i].Terminating? && (w.stages[i].Up? ==> i in w.replicas)
  {
    if i: nat :| i < |w.stages| && (w.stages[i].Terminating? || (w.stages[i].Up? && i !in w.replicas)) {
      UnknownLeaves(u, i);
    } else {
      assert forall i :: 0 <= i < |u.stages| ==> Known(u.stages[i], i in u.replicas);
      KnownLeavesNothing(u);
    }
  }

  /** What has yet to go well for launch `i` to serve. */
  function Coming(s: Stage, i: nat): seq<Step> {
    match s
    case Launching(_) => [Launched(i, true), Answered(i, Ready)]
    case Readying(_, _) => [Answered(i, Ready)]
    case _ => []
  }

  /**
   * A start cancelled in the pause between two launches does not cancel the launches under way: they
   * can still come up, running and routed to, after the cleaning up has given back their ports.
   */
  lemma OrphanComesUp(w: World, i: nat)
    requires Kept(w) && w.starter.Asleep? && 1 <= i < |w.stages|
    requires w.stages[i].Launching? || w.stages[i].Readying? || w.stages[i].Up?
    ensures
      var steps := [Cancel, Clean] + Coming(w.stages[i], i);
      && Possible(w, steps)
      && var after := Outcome(w, steps);
         && after.starter == Over(false) && i < |after.stages| && after.stages[i].Up?
         && after.stages[i].process < |after.processes| && after.processes[after.stages[i].process]
         && HealthyAt(after.entries, i) && after.stages[i].port !in after.reserved
  {
    PauseCleaned(w, i);
    var cleaned := Next(Next(w, Cancel), Clean);
    hide Kept, Coming, Next, Enabled;
    OrphanGoesOn(cleaned, i);
    TwoMore(w, Cancel, Clean, Coming(w.stages[i], i));
    hide Possible, Outcome;
  }

  lemma PauseCleaned(w: World, i: nat)
    requires Kept(w) && w.starter.Asleep? && 1 <= i < |w.stages|
    requires w.stages[i].Launching? || w.stages[i].Readying? || w.stages[i].Up?
    ensures Enabled(w, Cancel) && Enabled(Next(w, Cancel), Clean)
    ensures
      var cleaned := Next(Next(w, Cancel), Clean);
      && Kept(cleaned) && cleaned.starter == Over(false) && cleaned.stages == w.stages && i !in cleaned.replicas
      && w.stages[i].port !in cleaned.reserved
  {
    StepKeeps(w, Cancel);
    StepKeeps(Cancelled(w), Clean);
    assert PortOf(w.stages[i]).Some?;
    assert w.stages[i].port in SetOf(w.taken);
    hide ProcessesKept, EntriesKept;
  }

  lemma TwoMore(w: World, a: Step, b: Step, steps: seq<Step>)
    requires Enabled(w, a) && Enabled(Next(w, a), b) && Possible(Next(Next(w, a), b), steps)
    ensures Possible(w, [a, b] + steps) && Outcome(w, [a, b] + steps) == Outcome(Next(Next(w, a), b), steps)
  {
    assert ([a, b] + steps)[1..] == [b] + steps;
    assert ([b] + steps)[1..] == steps;
    assert Possible(Next(w, a), [b] + steps);
    hide Next, Enabled;
  }

  lemma OrphanGoesOn(w: World, i: nat)
    requires Kept(w) && w.starter == Over(false) && i < |w.stages| && i !in w.replicas
    requires w.stages[i].Launching? || w.stages[i].Readying? || w.stages[i].Up?
    ensures
      && Possible(w, Coming(w.stages[i], i))
      && var after := Outcome(w, Coming(w.stages[i], i));
         && after.starter == Over(false) && after.reserved == w.reserved && i < |after.stages|
         && after.stages[i].Up? && after.stages[i].port == w.stages[i].port
         && after.stages[i].process < |after.processes| && after.processes[after.stages[i].process]
         && HealthyAt(after.entries, i)
    decreases if w.stages[i].Launching? then 2 else if w.stages[i].Readying? then 1 else 0
  {
    if w.stages[i].Up? {
      assert ProcessOf(w.stages[i]).Some? && UpAt(w.stages, i);
    } else {
      var s := Coming(w.stages[i], i)[0];
      StepKeeps(w, s);
      OrphanGoesOn(Next(w, s), i);
      assert Coming(w.stages[i], i)[1..] == Coming(Next(w, s).stages[i], i);
    }
  }

  // ------------------------------------------------------------------ whether a launch, and the start, come off

  /**
   * How each await of a launch ends it or carries it on: it fails to begin exactly when no port of the
   * range is to be had; it goes on with a process of its own if that starts; it serves, and is routed
   * to, if it becomes ready, and is terminated if not.
   */
  lemma LaunchExactly(w: World, s: Step)
    requires Kept(w) && Enabled(w, s) && OfLaunch(s)
    ensures
      var u := Next(w, s);
      var before, after := w.stages[s.i], if s.i < |u.stages| then u.stages[s.i] else w.stages[s.i];
      && |u.stages| == |w.stages|
      && match s
         case Begin(_, free) =>
           if forall p :: w.range.Contains(p) ==> !Available(p, w.reserved, free) then after.Failed?
           else after.Launching? && w.range.Contains(after.port) && Available(after.port, w.reserved, free)
         case Launched(_, ok) =>
           if ok then
             && after == Readying(before.port, |w.processes|) && u.processes == w.processes + [true]
             && s.i in u.entries && u.entries[s.i] == Starting
           else after.Failed? && u.processes == w.processes
         case Answered(_, readiness) =>
           if readiness.Ready? then after == Up(before.port, before.process) && HealthyAt(u.entries, s.i)
           else after == Terminating(before.port, before.process, readiness.NotReady?) && u.processes == w.processes
         case Ended(_) =>
           && after.Failed? && before.process < |u.processes| && !u.processes[before.process]
           && (before.report ==> s.i in u.entries && u.entries[s.i] == Stopped)
  {
    match s
    case Begin(_, free) => AllocationComplete(w.range, w.cursor, w.reserved, free); ProbeNearest(w.range, w.cursor, w.range.Span(), w.reserved, free);
    case Ended(i) => assert ProcessOf(w.stages[i]).Some?;
    case _ =>
  }

  /** A start that was not cancelled gives up only over a launch that failed. */
  ghost predicate GivesUpFor(w: World) {
    (w.starter.Cleaning? || w.starter == Over(false)) && !w.cancelled ==>
      exists i :: 0 <= i < |w.stages| && w.stages[i].Failed?
  }

  lemma GivesUpStep(w: World, s: Step)
    requires ShapeKept(w) && GivesUpFor(w) && Enabled(w, s) && !s.Cancel?
    ensures GivesUpFor(Next(w, s))
  {
    if OfLaunch(s) {
      FailuresStay(w, s);
    } else if s.Gather? {
      if !w.cancelled && !AllUp(w.stages) {
        var i :| 0 <= i < |w.stages| && !w.stages[i].Up?;
        assert w.stages[i].Failed?;
      }
    } else if s.FirstSettles? {
      hide Spawned;
    } else {
      hide ShapeKept;
    }
  }

  lemma FailuresStay(w: World, s: Step)
    requires Enabled(w, s) && OfLaunch(s)
    ensures
      var u := Next(w, s);
      && u.starter == w.starter && u.cancelled == w.cancelled && |u.stages| == |w.stages|
      && forall i :: 0 <= i < |w.stages| && w.stages[i].Failed? ==> u.stages[i].Failed?
  {
    hide Probe;
  }

  lemma {:induction false} GivesUpRun(w: World, steps: seq<Step>)
    requires Kept(w) && GivesUpFor(w) && Possible(w, steps) && Cancel !in steps
    ensures GivesUpFor(Outcome(w, steps))
    decreases |steps|
  {
    if steps != [] {
      StepKeeps(w, steps[0]);
      GivesUpStep(w, steps[0]);
      hide Kept, Next, Enabled, GivesUpFor;
      GivesUpRun(Next(w, steps[0]), steps[1..]);
    }
  }

  /** A start that is not cancelled succeeds if and only if no launch failed. */
  lemma SucceedsExactly(w: World, steps: seq<Step>)
    requires Initial(w) && Possible(w, steps) && Cancel !in steps && Outcome(w, steps).starter.Over?
    ensures
      var after := Outcome(w, steps);
      after.starter.ok <==> forall i :: 0 <= i < |after.stages| ==> !after.stages[i].Failed?
  {
    InitialKept(w);
    RunKeeps(w, steps);
    NeverCancelled(w, steps);
    GivesUpRun(w, steps);
    hide Outcome, Possible, Initial;
  }
}

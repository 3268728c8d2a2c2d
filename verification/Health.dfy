/** Health checking: probes, deaths, and restarts bounded by a rolling budget. */
module HealthChecks {
  import opened Common
  import opened Routing

  type Time = real

  datatype Limits = Limits(window: Time, maxRestarts: nat, unhealthyAfter: int, enabled: bool)

  // ------------------------------------------------------------------ the restart budget

  /** Restart times still inside the rolling window. */
  function Prune(times: seq<Time>, now: Time, window: Time): seq<Time> {
    if times != [] && now - times[0] > window then Prune(times[1..], now, window) else times
  }

  /** What a death leads to: a restart, or stopping for good. */
  datatype Response = Restart(times: seq<Time>) | GiveUp(times: seq<Time>)

  function Respond(limits: Limits, times: seq<Time>, now: Time): Response {
    var recent := Prune(times, now, limits.window);
    if !limits.enabled then GiveUp(times)
    else if |recent| >= limits.maxRestarts then GiveUp(recent)
    else Restart(recent + [now])
  }

  ghost predicate Ascending(history: seq<Time>) {
    forall a, b :: 0 <= a < b < |history| ==> history[a] <= history[b]
  }

  /** More than the allowed number of restarts always take longer than the window. */
  ghost predicate Spaced(limits: Limits, history: seq<Time>) {
    forall a, b :: 0 <= a && a + limits.maxRestarts <= b < |history| ==> history[b] - history[a] > limits.window
  }

  /** The remembered times are the newest of the full history; those forgotten have left the window. */
  ghost predicate Remembers(limits: Limits, times: seq<Time>, history: seq<Time>, now: Time) {
    && |times| <= |history| && times == history[|history| - |times|..]
    && (forall j :: 0 <= j < |history| - |times| ==> now - history[j] > limits.window)
    && (forall j :: 0 <= j < |history| ==> history[j] <= now)
  }

  ghost predicate Budgeted(limits: Limits, times: seq<Time>, history: seq<Time>, now: Time) {
    Ascending(history) && Spaced(limits, history) && Remembers(limits, times, history, now)
  }

  lemma {:induction false} PruneRemembers(limits: Limits, times: seq<Time>, history: seq<Time>, now: Time)
    requires Remembers(limits, times, history, now)
    ensures Remembers(limits, Prune(times, now, limits.window), history, now)
    decreases |times|
  {
    if times != [] && now - times[0] > limits.window {
      var n := |history| - |times|;
      assert times[0] == history[n] && times[1..] == history[n + 1..];
      PruneRemembers(limits, times[1..], history, now);
    }
  }

  lemma GrantSpaced(limits: Limits, recent: seq<Time>, history: seq<Time>, now: Time)
    requires Spaced(limits, history) && Remembers(limits, recent, history, now) && |recent| < limits.maxRestarts
    ensures Spaced(limits, history + [now])
  {
    var longer := history + [now];
    forall a, b | 0 <= a && a + limits.maxRestarts <= b < |longer| ensures longer[b] - longer[a] > limits.window {
      if b == |history| {
        assert a < |history| - |recent|;
      }
    }
  }

  lemma GrantRemembers(limits: Limits, recent: seq<Time>, history: seq<Time>, now: Time)
    requires Remembers(limits, recent, history, now)
    ensures Remembers(limits, recent + [now], history + [now], now)
  {
    var longer := history + [now];
    assert longer[|longer| - |recent| - 1..] == history[|history| - |recent|..] + [now];
  }

  /** Another restart is only granted when the history stays within the budget. */
  lemma RespondStaysInBudget(limits: Limits, times: seq<Time>, history: seq<Time>, now: Time)
    requires Budgeted(limits, times, history, now)
    ensures
      match Respond(limits, times, now)
      case Restart(recent) => Budgeted(limits, recent, history + [now], now)
      case GiveUp(recent) => Budgeted(limits, recent, history, now)
  {
    PruneRemembers(limits, times, history, now);
    var recent := Prune(times, now, limits.window);
    if limits.enabled && |recent| < limits.maxRestarts {
      assert Ascending(history + [now]);
      hide Ascending;
      GrantSpaced(limits, recent, history, now);
      GrantRemembers(limits, recent, history, now);
    }
    hide Prune, Spaced, Remembers, Ascending;
  }

  lemma TimePasses(limits: Limits, times: seq<Time>, history: seq<Time>, now: Time, later: Time)
    requires Budgeted(limits, times, history, now) && now <= later
    ensures Budgeted(limits, times, history, later)
  {
  }

  /** Any stretch of time no longer than the window contains at most the allowed number of restarts. */
  lemma WindowHoldsAtMost(limits: Limits, history: seq<Time>, from: Time, a: nat, b: nat)
    requires Ascending(history) && Spaced(limits, history)
    requires a <= b < |history| && from <= history[a] && history[b] <= from + limits.window
    ensures b - a + 1 <= limits.maxRestarts
  {
    assert history[b] - history[a] <= limits.window;
  }

  /** The same replicas are known, the one at `index` with this status and the others with theirs. */
  ghost predicate StatusSet(before: map<nat, Health>, after: map<nat, Health>, index: nat, status: Health) {
    && after.Keys == before.Keys
    && forall i :: i in after ==> after[i] == if i == index then status else before[i]
  }

  class HealthChecker {
    const limits: Limits
    var restartTimes: map<nat, seq<Time>>
    var restarting: set<nat>
    var tasks: seq<Task>
    /** What the router knows of each replica. */
    var entries: map<nat, Health>

    constructor (limits: Limits, entries: map<nat, Health>)
      ensures this.limits == limits && restartTimes == map[] && restarting == {} && tasks == [] && this.entries == entries
    {
      this.limits, restartTimes, restarting, tasks, this.entries := limits, map[], {}, [], entries;
    }

    /** `set_status`: of no effect on a replica the router does not know. */
    method SetStatus(index: nat, status: Health)
      modifies this`entries
      ensures StatusSet(old(entries), entries, index, status)
    {
      if index in entries {
        entries := entries[index := status];
      }
    }

    function TimesOf(index: nat): seq<Time>
      reads this
    {
      if index in restartTimes then restartTimes[index] else []
    }

    /** Decide about a replica found dead: set a restart going, or stop it for good. */
    method HandleDead(index: nat, now: Time) returns (restart: bool)
      modifies this
      ensures
        var response := Respond(limits, old(TimesOf(index)), now);
        && restart == response.Restart?
        && TimesOf(index) == response.times
        && restarting == (if restart then old(restarting) + {index} else old(restarting))
        && tasks == (if restart then old(tasks) + [Task(index, Backoff)] else old(tasks))
        && StatusSet(old(entries), entries, index, if restart then Unhealthy else Stopped)
      ensures forall other: nat :: other != index ==> TimesOf(other) == old(TimesOf(other))
    {
      SetStatus(index, Unhealthy);
      if !limits.enabled {
        SetStatus(index, Stopped);
        return false;
      }
      var times := TimesOf(index);
      while times != [] && now - times[0] > limits.window
        invariant Prune(times, now, limits.window) == Prune(old(TimesOf(index)), now, limits.window)
        decreases |times|
      {
        times := times[1..];
      }
      restartTimes := restartTimes[index := times];
      if |times| >= limits.maxRestarts {
        SetStatus(index, Stopped);
        return false;
      }
      restartTimes := restartTimes[index := times + [now]];
      restarting := restarting + {index};
      tasks := tasks + [Task(index, Backoff)];
      return true;
    }
  }

  // ------------------------------------------------------------------ the fleet as an interleaved protocol

  /** Where a restart task is: sleeping, launching, waiting for readiness, telling others, done. */
  datatype Stage = Backoff | Launching | Readying | Announcing | Over

  datatype Task = Task(index: nat, stage: Stage)

  /**
   * One plan position: its router entry, whether its recorded process runs, failed probes in a row,
   * remembered restart times. `history` and `dead` (found dead and not yet replaced) are for the record.
   */
  datatype Slot = Slot(
    entry: Option<Health>, alive: bool, failures: int, times: seq<Time>, history: seq<Time>, dead: bool)

  /** `live` are the positions being probed between a scan and its results. */
  datatype Fleet = Fleet(slots: seq<Slot>, restarting: set<nat>, tasks: seq<Task>, live: seq<nat>, probing: bool, now: Time)

  datatype Event = Proceeds | Fails | Breaks

  datatype Step =
    | Clock(now: Time)
    | Dies(i: nat)
    | Scan
    | Settle(answers: nat -> bool)
    | Tasking(t: nat, event: Event)

  function WithSlot(f: Fleet, i: nat, slot: Slot): Fleet
    requires i < |f.slots|
  {
    f.(slots := f.slots[i := slot])
  }

  /** `_handle_dead`: stop the replica for good or set a restart task going. */
  function HandleDead(limits: Limits, f: Fleet, i: nat): Fleet
    requires i < |f.slots|
  {
    var slot, response := f.slots[i], Respond(limits, f.slots[i].times, f.now);
    match response
    case GiveUp(times) => WithSlot(f, i, slot.(entry := Some(Stopped), times := times, dead := true))
    case Restart(times) =>
      WithSlot(f, i, slot.(entry := Some(Unhealthy), times := times, history := slot.history + [f.now], dead := true))
      .(restarting := f.restarting + {i}, tasks := f.tasks + [Task(i, Backoff)])
  }

  /** The scan of positions `i` and up. */
  function ScanFrom(limits: Limits, f: Fleet, i: nat): Fleet
    decreases |f.slots| - i
  {
    if i >= |f.slots| then f
    else
      var slot := f.slots[i];
      if i in f.restarting || slot.entry.None? || slot.entry.value.Stopped? then ScanFrom(limits, f, i + 1)
      else if !slot.alive then ScanFrom(limits, HandleDead(limits, f, i), i + 1)
      else ScanFrom(limits, f.(live := f.live + [i]), i + 1)
  }

  /** What a probe's answer does to the replica probed. */
  function Answered(limits: Limits, slot: Slot, ok: bool): Slot {
    if slot.entry.None? then slot
    else if ok then slot.(entry := Some(Healthy), failures := 0)
    else
      var failures := slot.failures + 1;
      slot.(failures := failures,
            entry := if failures >= limits.unhealthyAfter && slot.entry.value.Healthy? then Some(Unhealthy) else slot.entry)
  }

  function SettleAll(limits: Limits, slots: seq<Slot>, live: seq<nat>, answers: nat -> bool): seq<Slot>
    decreases |live|
  {
    if live == [] then slots
    else
      var i := live[0];
      SettleAll(limits, if i < |slots| then slots[i := Answered(limits, slots[i], answers(i))] else slots, live[1..], answers)
  }

  /** A restart task's next stage and what it does to its replica. */
  function Advance(f: Fleet, t: nat, event: Event): Fleet
    requires t < |f.tasks| && f.tasks[t].index < |f.slots| && !f.tasks[t].stage.Over?
  {
    var task := f.tasks[t];
    var i, slot := task.index, f.slots[task.index];
    if event.Breaks? then Ended(f, t)
    else
      match task.stage
      case Backoff => WithSlot(f, i, slot.(entry := None, alive := false)).(tasks := f.tasks[t := Task(i, Launching)])
      case Launching =>
        if event.Fails? then WithSlot(Ended(f, t), i, slot.(entry := Some(Unhealthy)))
        else WithSlot(f, i, slot.(entry := Some(Starting), failures := 0)).(tasks := f.tasks[t := Task(i, Readying)])
      case Readying =>
        if event.Fails? then WithSlot(Ended(f, t), i, slot.(entry := Some(Unhealthy)))
        else
          WithSlot(f, i, slot.(entry := Some(Healthy), alive := true, dead := false)).(tasks := f.tasks[t := Task(i, Announcing)])
      case _ => Ended(f, t)
  }

  function Ended(f: Fleet, t: nat): Fleet
    requires t < |f.tasks|
  {
    f.(tasks := f.tasks[t := f.tasks[t].(stage := Over)], restarting := f.restarting - {f.tasks[t].index})
  }

  predicate Enabled(f: Fleet, s: Step) {
    match s
    case Clock(now) => f.now <= now
    case Dies(i) => i < |f.slots|
    case Scan => !f.probing
    case Settle(_) => f.probing
    case Tasking(t, _) => t < |f.tasks| && f.tasks[t].index < |f.slots| && !f.tasks[t].stage.Over?
  }

  function Next(limits: Limits, f: Fleet, s: Step): Fleet
    requires Enabled(f, s)
  {
    match s
    case Clock(now) => f.(now := now)
    case Dies(i) => WithSlot(f, i, f.slots[i].(alive := false))
    case Scan => ScanFrom(limits, f.(live := []), 0).(probing := true)
    case Settle(answers) => f.(slots := SettleAll(limits, f.slots, f.live, answers), live := [], probing := false)
    case Tasking(t, event) => Advance(f, t, event)
  }

  // ------------------------------------------------------------------ what every step keeps

  /** A replica found dead is neither running nor routable, and its restarts stay within budget. */
  ghost predicate SlotKept(limits: Limits, slot: Slot, now: Time) {
    && (slot.dead ==> !slot.alive && slot.entry != Some(Healthy))
    && Budgeted(limits, slot.times, slot.history, now)
  }

  /** At most one task is restarting each position, and the set of positions being restarted is exact. */
  ghost predicate TasksKept(f: Fleet) {
    && (forall t :: 0 <= t < |f.tasks| ==> f.tasks[t].index < |f.slots|)
    && (forall a, b :: 0 <= a < b < |f.tasks| && !f.tasks[a].stage.Over? && !f.tasks[b].stage.Over? ==>
          f.tasks[a].index != f.tasks[b].index)
    && (forall t :: 0 <= t < |f.tasks| && !f.tasks[t].stage.Over? ==> f.tasks[t].index in f.restarting)
    && (forall i :: i in f.restarting ==> exists t :: 0 <= t < |f.tasks| && f.tasks[t].index == i && !f.tasks[t].stage.Over?)
    && (forall t :: 0 <= t < |f.tasks| && !f.tasks[t].stage.Over? && !f.tasks[t].stage.Announcing? ==>
          f.slots[f.tasks[t].index].dead)
  }

  /** Positions being probed are not being restarted and were not found dead. */
  ghost predicate LiveKept(f: Fleet) {
    forall k :: 0 <= k < |f.live| ==> f.live[k] < |f.slots| && f.live[k] !in f.restarting && !f.slots[f.live[k]].dead
  }

  ghost predicate Kept(limits: Limits, f: Fleet) {
    && (forall i :: 0 <= i < |f.slots| ==> SlotKept(limits, f.slots[i], f.now))
    && TasksKept(f)
    && LiveKept(f)
  }

  /** Marking a position dead that is neither probed nor being restarted. */
  lemma MarkDeadKeeps(limits: Limits, f: Fleet, i: nat, slot: Slot)
    requires Kept(limits, f) && i < |f.slots| && i !in f.live && SlotKept(limits, slot, f.now) && slot.dead
    ensures Kept(limits, WithSlot(f, i, slot))
  {
    hide SlotKept;
  }

  /** Starting a restart task for a dead position. */
  lemma StartTaskKeeps(limits: Limits, f: Fleet, i: nat)
    requires Kept(limits, f) && i < |f.slots| && i !in f.restarting && i !in f.live && f.slots[i].dead
    ensures Kept(limits, f.(restarting := f.restarting + {i}, tasks := f.tasks + [Task(i, Backoff)]))
  {
    var g := f.(restarting := f.restarting + {i}, tasks := f.tasks + [Task(i, Backoff)]);
    hide SlotKept;
    assert g.tasks[|f.tasks|] == Task(i, Backoff);
    forall j | j in g.restarting && j != i
      ensures exists t :: 0 <= t < |g.tasks| && g.tasks[t].index == j && !g.tasks[t].stage.Over?
    {
      var t :| 0 <= t < |f.tasks| && f.tasks[t].index == j && !f.tasks[t].stage.Over?;
      assert g.tasks[t] == f.tasks[t];
    }
  }

  lemma HandleDeadKeeps(limits: Limits, f: Fleet, i: nat)
    requires Kept(limits, f) && i < |f.slots| && i !in f.restarting && !f.slots[i].alive && i !in f.live
    ensures Kept(limits, HandleDead(limits, f, i))
  {
    var slot := f.slots[i];
    assert SlotKept(limits, slot, f.now);
    RespondStaysInBudget(limits, slot.times, slot.history, f.now);
    hide Kept, Respond, Budgeted;
    match Respond(limits, slot.times, f.now)
    case GiveUp(times) => MarkDeadKeeps(limits, f, i, slot.(entry := Some(Stopped), times := times, dead := true));
    case Restart(times) =>
      var marked := slot.(entry := Some(Unhealthy), times := times, history := slot.history + [f.now], dead := true);
      MarkDeadKeeps(limits, f, i, marked);
      StartTaskKeeps(limits, WithSlot(f, i, marked), i);
  }

  /** Positions already scanned that are being probed lie below the scan. */
  ghost predicate LiveBelow(f: Fleet, i: nat) {
    forall k :: 0 <= k < |f.live| ==> f.live[k] < i
  }

  lemma ProbingKeeps(limits: Limits, f: Fleet, i: nat)
    requires Kept(limits, f) && LiveBelow(f, i) && i < |f.slots| && i !in f.restarting && f.slots[i].alive
    ensures Kept(limits, f.(live := f.live + [i])) && LiveBelow(f.(live := f.live + [i]), i + 1)
  {
    assert SlotKept(limits, f.slots[i], f.now);
    hide Budgeted, TasksKept;
  }

  lemma {:induction false} ScanKeeps(limits: Limits, f: Fleet, i: nat)
    requires Kept(limits, f) && LiveBelow(f, i)
    ensures Kept(limits, ScanFrom(limits, f, i)) && |ScanFrom(limits, f, i).slots| == |f.slots|
    decreases |f.slots| - i
  {
    hide Kept, Respond;
    if i < |f.slots| {
      var slot := f.slots[i];
      if i in f.restarting || slot.entry.None? || slot.entry.value.Stopped? {
        ScanKeeps(limits, f, i + 1);
      } else if !slot.alive {
        HandleDeadKeeps(limits, f, i);
        ScanKeeps(limits, HandleDead(limits, f, i), i + 1);
      } else {
        ProbingKeeps(limits, f, i);
        ScanKeeps(limits, f.(live := f.live + [i]), i + 1);
      }
    }
  }

  lemma {:induction false} SettleKeeps(limits: Limits, slots: seq<Slot>, live: seq<nat>, answers: nat -> bool, now: Time)
    requires forall i :: 0 <= i < |slots| ==> SlotKept(limits, slots[i], now)
    requires forall k :: 0 <= k < |live| ==> live[k] < |slots| && !slots[live[k]].dead
    ensures
      var after := SettleAll(limits, slots, live, answers);
      && |after| == |slots|
      && forall i :: 0 <= i < |slots| ==> SlotKept(limits, after[i], now) && after[i].dead == slots[i].dead
    decreases |live|
  {
    hide Budgeted;
    if live != [] {
      var i := live[0];
      var next := slots[i := Answered(limits, slots[i], answers(i))];
      assert SlotKept(limits, slots[i], now);
      assert forall j :: 0 <= j < |slots| ==> SlotKept(limits, next[j], now) && next[j].dead == slots[j].dead;
      SettleKeeps(limits, next, live[1..], answers, now);
    }
  }

  lemma EndedKeeps(limits: Limits, f: Fleet, t: nat)
    requires Kept(limits, f) && t < |f.tasks| && !f.tasks[t].stage.Over?
    ensures Kept(limits, Ended(f, t))
  {
    var g := Ended(f, t);
    hide SlotKept;
    forall j | j in g.restarting ensures exists k :: 0 <= k < |g.tasks| && g.tasks[k].index == j && !g.tasks[k].stage.Over? {
      var k :| 0 <= k < |f.tasks| && f.tasks[k].index == j && !f.tasks[k].stage.Over?;
      assert g.tasks[k] == f.tasks[k];
    }
  }

  /** Moving a restart task on to another stage of the same restart. */
  lemma StageKeeps(limits: Limits, f: Fleet, t: nat, stage: Stage, slot: Slot)
    requires Kept(limits, f) && t < |f.tasks| && !f.tasks[t].stage.Over? && !stage.Over?
    requires SlotKept(limits, slot, f.now) && (slot.dead || stage.Announcing?)
    ensures
      var i := f.tasks[t].index;
      Kept(limits, WithSlot(f, i, slot).(tasks := f.tasks[t := Task(i, stage)]))
  {
    var i := f.tasks[t].index;
    var g := WithSlot(f, i, slot).(tasks := f.tasks[t := Task(i, stage)]);
    hide SlotKept;
    forall j | j in g.restarting ensures exists k :: 0 <= k < |g.tasks| && g.tasks[k].index == j && !g.tasks[k].stage.Over? {
      var k :| 0 <= k < |f.tasks| && f.tasks[k].index == j && !f.tasks[k].stage.Over?;
      assert g.tasks[k].index == j && !g.tasks[k].stage.Over?;
    }
  }

  /** Changing a replica that no task is restarting and that stays dead if it was. */
  lemma SlotChangeKeeps(limits: Limits, f: Fleet, i: nat, slot: Slot)
    requires Kept(limits, f) && i < |f.slots| && SlotKept(limits, slot, f.now) && slot.dead == f.slots[i].dead
    ensures Kept(limits, WithSlot(f, i, slot))
  {
    hide SlotKept;
  }

  lemma AdvanceKeeps(limits: Limits, f: Fleet, t: nat, event: Event)
    requires Kept(limits, f) && Enabled(f, Tasking(t, event))
    ensures Kept(limits, Advance(f, t, event))
  {
    var task := f.tasks[t];
    var i, slot := task.index, f.slots[task.index];
    assert SlotKept(limits, slot, f.now);
    EndedKeeps(limits, f, t);
    hide Kept, Budgeted;
    if event.Breaks? || task.stage.Announcing? {
    } else if event.Fails? && !task.stage.Backoff? {
      SlotChangeKeeps(limits, Ended(f, t), i, slot.(entry := Some(Unhealthy)));
    } else if task.stage.Readying? {
      StageKeeps(limits, f, t, Announcing, slot.(entry := Some(Healthy), alive := true, dead := false));
    } else if task.stage.Launching? {
      RestartingIsDead(limits, f, t);
      StageKeeps(limits, f, t, Readying, slot.(entry := Some(Starting), failures := 0));
    } else {
      RestartingIsDead(limits, f, t);
      StageKeeps(limits, f, t, Launching, slot.(entry := None, alive := false));
    }
  }

  /** From being found dead until its replacement passes readiness, a replica is not running and not routable. */
  lemma RestartingIsDead(limits: Limits, f: Fleet, t: nat)
    requires Kept(limits, f) && t < |f.tasks| && !f.tasks[t].stage.Over? && !f.tasks[t].stage.Announcing?
    ensures f.slots[f.tasks[t].index].dead && f.slots[f.tasks[t].index].entry != Some(Healthy)
    ensures !f.slots[f.tasks[t].index].alive
  {
    assert SlotKept(limits, f.slots[f.tasks[t].index], f.now);
    hide Budgeted;
  }

  lemma StepKeeps(limits: Limits, f: Fleet, s: Step)
    requires Kept(limits, f) && Enabled(f, s)
    ensures Kept(limits, Next(limits, f, s)) && |Next(limits, f, s).slots| == |f.slots|
  {
    hide Budgeted;
    match s
    case Clock(now) =>
      forall i | 0 <= i < |f.slots| ensures SlotKept(limits, f.slots[i], now) {
        assert SlotKept(limits, f.slots[i], f.now);
        TimePasses(limits, f.slots[i].times, f.slots[i].history, f.now, now);
      }
    case Dies(i) =>
      assert SlotKept(limits, f.slots[i], f.now);
      SlotChangeKeeps(limits, f, i, f.slots[i].(alive := false));
    case Scan => ScanKeeps(limits, f.(live := []), 0);
    case Settle(answers) => SettleKeeps(limits, f.slots, f.live, answers, f.now);
    case Tasking(t, event) => AdvanceKeeps(limits, f, t, event);
  }

  // ------------------------------------------------------------------ whole runs

  ghost predicate Possible(limits: Limits, f: Fleet, steps: seq<Step>)
    decreases |steps|
  {
    steps == [] || (Enabled(f, steps[0]) && Possible(limits, Next(limits, f, steps[0]), steps[1..]))
  }

  ghost function Outcome(limits: Limits, f: Fleet, steps: seq<Step>): Fleet
    requires Possible(limits, f, steps)
    decreases |steps|
  {
    if steps == [] then f else Outcome(limits, Next(limits, f, steps[0]), steps[1..])
  }

  /** A fleet that has just started: every replica running and healthy, none ever restarted. */
  predicate Started(f: Fleet) {
    && f.restarting == {} && f.tasks == [] && f.live == [] && !f.probing
    && forall i :: 0 <= i < |f.slots| ==> f.slots[i] == Slot(Some(Healthy), true, 0, [], [], false)
  }

  lemma StartedKept(limits: Limits, f: Fleet)
    requires Started(f)
    ensures Kept(limits, f)
  {
  }

  lemma {:induction false} RunKeeps(limits: Limits, f: Fleet, steps: seq<Step>)
    requires Kept(limits, f) && Possible(limits, f, steps)
    ensures Kept(limits, Outcome(limits, f, steps))
    decreases |steps|
  {
    hide Kept, Next, Enabled;
    if steps != [] {
      StepKeeps(limits, f, steps[0]);
      RunKeeps(limits, Next(limits, f, steps[0]), steps[1..]);
    }
  }

  /**
   * The restart budget over a whole run: however deaths, probes and restarts interleave, no stretch
   * of time of the window's length holds more than the allowed number of restarts of one replica,
   * and no two restarts of one replica are ever under way at once.
   */
  lemma RestartBudget(limits: Limits, f: Fleet, steps: seq<Step>, i: nat, from: Time, a: nat, b: nat)
    requires Started(f) && Possible(limits, f, steps)
    requires i < |Outcome(limits, f, steps).slots|
    requires
      var history := Outcome(limits, f, steps).slots[i].history;
      a <= b < |history| && from <= history[a] && history[b] <= from + limits.window
    ensures b - a + 1 <= limits.maxRestarts
    ensures TasksKept(Outcome(limits, f, steps))
  {
    StartedKept(limits, f);
    RunKeeps(limits, f, steps);
    var g := Outcome(limits, f, steps);
    hide Outcome, Possible, Started, TasksKept;
    assert SlotKept(limits, g.slots[i], g.now);
    WindowHoldsAtMost(limits, g.slots[i].history, from, a, b);
  }

  /**
   * Over a whole run: a replica found dead, until its replacement passes readiness, is neither running
   * nor healthy in the router, and a restart that has not come that far is of such a replica.
   */
  lemma DeadStaysOut(limits: Limits, f: Fleet, steps: seq<Step>, i: nat)
    requires Started(f) && Possible(limits, f, steps) && i < |Outcome(limits, f, steps).slots|
    ensures
      var g := Outcome(limits, f, steps);
      && (g.slots[i].dead ==> !g.slots[i].alive && g.slots[i].entry != Some(Healthy))
      && forall t :: 0 <= t < |g.tasks| && g.tasks[t].index == i && !g.tasks[t].stage.Over? && !g.tasks[t].stage.Announcing? ==>
           g.slots[i].dead
  {
    StartedKept(limits, f);
    RunKeeps(limits, f, steps);
    var g := Outcome(limits, f, steps);
    hide Outcome, Possible, Started, Budgeted;
    assert SlotKept(limits, g.slots[i], g.now);
  }

  lemma {:induction false} ScanRevivesNone(limits: Limits, f: Fleet, k: nat, i: nat)
    requires i < |f.slots| && f.slots[i].dead
    ensures |ScanFrom(limits, f, k).slots| == |f.slots| && ScanFrom(limits, f, k).slots[i].dead
    decreases |f.slots| - k
  {
    hide Respond;
    if k < |f.slots| {
      var slot := f.slots[k];
      if k in f.restarting || slot.entry.None? || slot.entry.value.Stopped? {
        ScanRevivesNone(limits, f, k + 1, i);
      } else if !slot.alive {
        ScanRevivesNone(limits, HandleDead(limits, f, k), k + 1, i);
      } else {
        ScanRevivesNone(limits, f.(live := f.live + [k]), k + 1, i);
      }
    }
  }

  /** Once found dead, a replica counts as dead until a replacement passes its readiness check. */
  lemma OnlyReadinessRevives(limits: Limits, f: Fleet, s: Step, i: nat)
    requires Kept(limits, f) && Enabled(f, s) && i < |f.slots|
    requires f.slots[i].dead && (i < |Next(limits, f, s).slots| ==> !Next(limits, f, s).slots[i].dead)
    ensures s.Tasking? && s.event.Proceeds? && f.tasks[s.t] == Task(i, Readying)
  {
    match s
    case Scan => ScanRevivesNone(limits, f.(live := []), 0, i);
    case Settle(answers) =>
      hide Budgeted;
      SettleKeeps(limits, f.slots, f.live, answers, f.now);
    case _ =>
  }
}

/** When a dead replica is restarted or given up, and when probes mark one unhealthy: the exact conditions. */
module Supervision {
  import opened Common
  import opened Routing
  import opened HealthChecks

  // ------------------------------------------------------------------ one death

  /** How many of the restarts on record lie within the window before now. */
  function Recent(history: seq<Time>, now: Time, window: Time): nat {
    if history == [] then 0 else (if now - history[0] <= window then 1 else 0) + Recent(history[1..], now, window)
  }

  lemma {:induction false} RecentAppend(a: seq<Time>, b: seq<Time>, now: Time, window: Time)
    ensures Recent(a + b, now, window) == Recent(a, now, window) + Recent(b, now, window)
  {
    if a == [] {
      assert a + b == b;
    } else {
      assert (a + b)[1..] == a[1..] + b;
      RecentAppend(a[1..], b, now, window);
    }
  }

  lemma {:induction false} RecentAll(history: seq<Time>, now: Time, window: Time)
    ensures (forall j :: 0 <= j < |history| ==> now - history[j] <= window) ==> Recent(history, now, window) == |history|
    ensures (forall j :: 0 <= j < |history| ==> now - history[j] > window) ==> Recent(history, now, window) == 0
  {
    if history != [] {
      RecentAll(history[1..], now, window);
    }
  }

  lemma {:induction false} PruneStops(times: seq<Time>, now: Time, window: Time)
    ensures Prune(times, now, window) != [] ==> now - Prune(times, now, window)[0] <= window
    decreases |times|
  {
    if times != [] && now - times[0] > window {
      PruneStops(times[1..], now, window);
    }
  }

  /** What is left after pruning are the restarts within the window, all of them and no others. */
  lemma PruneCounts(limits: Limits, times: seq<Time>, history: seq<Time>, now: Time)
    requires Ascending(history) && Remembers(limits, times, history, now)
    ensures |Prune(times, now, limits.window)| == Recent(history, now, limits.window)
  {
    var kept := Prune(times, now, limits.window);
    PruneRemembers(limits, times, history, now);
    PruneStops(times, now, limits.window);
    hide Prune;
    var n := |history| - |kept|;
    var gone := history[..n];
    assert history == gone + kept;
    assert forall j :: 0 <= j < |gone| ==> now - gone[j] > limits.window;
    KeptWithin(limits, kept, history, now);
    hide Remembers, Ascending;
    RecentAppend(gone, kept, now, limits.window);
    RecentAll(gone, now, limits.window);
    RecentAll(kept, now, limits.window);
  }

  lemma KeptWithin(limits: Limits, kept: seq<Time>, history: seq<Time>, now: Time)
    requires Ascending(history) && Remembers(limits, kept, history, now)
    requires kept != [] ==> now - kept[0] <= limits.window
    ensures forall j :: 0 <= j < |kept| ==> now - kept[j] <= limits.window
  {
    var n := |history| - |kept|;
    forall j | 0 <= j < |kept| ensures now - kept[j] <= limits.window {
      assert kept[j] == history[n + j] && kept[0] == history[n + 0];
    }
  }

  /**
   * A death leads to a restart if and only if restarts are enabled and fewer than the allowed number
   * of all the replica's restarts lie within the window before now.
   */
  lemma RestartedExactly(limits: Limits, times: seq<Time>, history: seq<Time>, now: Time)
    requires Budgeted(limits, times, history, now)
    ensures Respond(limits, times, now).Restart? <==>
              limits.enabled && Recent(history, now, limits.window) < limits.maxRestarts
  {
    PruneCounts(limits, times, history, now);
    hide Prune, Ascending, Spaced, Remembers;
  }

  // ------------------------------------------------------------------ a scan of the fleet

  /** What a scan makes of one replica. */
  predicate Unseen(f: Fleet, i: nat)
    requires i < |f.slots|
  {
    i in f.restarting || f.slots[i].entry.None? || f.slots[i].entry.value.Stopped?
  }

  /** Scanning from `k` on leaves earlier positions alone and treats each later one by what it was before. */
  lemma {:induction false} ScanEach(limits: Limits, f: Fleet, k: nat, i: nat)
    requires i < |f.slots|
    ensures
      var g := ScanFrom(limits, f, k);
      && |g.slots| == |f.slots| && g.now == f.now
      && (if i < k || Unseen(f, i) then g.slots[i] == f.slots[i] && (i in g.restarting <==> i in f.restarting)
          else if f.slots[i].alive then
            g.slots[i] == f.slots[i] && i in g.live && (i in g.restarting <==> i in f.restarting)
          else
            && g.slots[i] == HandleDead(limits, f, i).slots[i]
            && (i in g.restarting <==> Respond(limits, f.slots[i].times, f.now).Restart?))
      && forall j :: j in f.live ==> j in g.live
    decreases |f.slots| - k
  {
    hide Respond;
    if k < |f.slots| {
      if Unseen(f, k) {
        ScanEach(limits, f, k + 1, i);
      } else if !f.slots[k].alive {
        ScanEach(limits, HandleDead(limits, f, k), k + 1, i);
      } else {
        ScanEach(limits, f.(live := f.live + [k]), k + 1, i);
      }
    }
  }

  /**
   * A replica found dead by a scan is restarted if and only if its budget allows it, and stopped for
   * good if not; a live one is probed; one being restarted, unknown to the router or stopped is left alone.
   */
  lemma ScanExactly(limits: Limits, f: Fleet, i: nat)
    requires Kept(limits, f) && Enabled(f, Scan) && i < |f.slots|
    ensures |Next(limits, f, Scan).slots| == |f.slots|
    ensures
      var g, slot := Next(limits, f, Scan), f.slots[i];
      var within := limits.enabled && Recent(slot.history, f.now, limits.window) < limits.maxRestarts;
      if Unseen(f, i) then g.slots[i] == slot && (i in g.restarting <==> i in f.restarting)
      else if slot.alive then g.slots[i] == slot && i in g.live && i !in g.restarting
      else
        && g.slots[i].dead && !g.slots[i].alive && (i in g.restarting <==> within)
        && g.slots[i].entry == Some(if within then Unhealthy else Stopped)
        && g.slots[i].history == (if within then slot.history + [f.now] else slot.history)
  {
    var slot := f.slots[i];
    assert SlotKept(limits, slot, f.now);
    RestartedExactly(limits, slot.times, slot.history, f.now);
    ScanEach(limits, f.(live := []), 0, i);
    assert HandleDead(limits, f.(live := []), i).slots[i] == HandleDead(limits, f, i).slots[i];
    hide Kept, Budgeted, Recent, ScanFrom;
  }

  predicate Rising(live: seq<nat>) {
    forall j, k :: 0 <= j < k < |live| ==> live[j] < live[k]
  }

  lemma RisingNext(live: seq<nat>, k: nat)
    requires Rising(live) && forall j :: j in live ==> j < k
    ensures Rising(live + [k]) && forall j :: j in live + [k] ==> j < k + 1
    ensures forall j :: j in live + [k] <==> j in live || j == k
  {
    forall i, j | 0 <= i < j < |live + [k]| ensures (live + [k])[i] < (live + [k])[j] {
      assert live[i] in live;
    }
  }

  lemma HandleDeadOthers(limits: Limits, f: Fleet, k: nat)
    requires k < |f.slots|
    ensures
      var g := HandleDead(limits, f, k);
      && g.live == f.live && |g.slots| == |f.slots|
      && forall j :: k < j < |f.slots| ==> g.slots[j] == f.slots[j] && Unseen(g, j) == Unseen(f, j)
  {
    hide Respond;
  }

  /** Scanning from `k` on adds exactly the later positions that are seen and alive, in order. */
  lemma {:induction false} ScanProbes(limits: Limits, f: Fleet, k: nat)
    requires Rising(f.live) && forall j :: j in f.live ==> j < k
    ensures
      var live := ScanFrom(limits, f, k).live;
      && Rising(live)
      && forall j: nat :: j in live <==> j in f.live || (k <= j < |f.slots| && !Unseen(f, j) && f.slots[j].alive)
    decreases |f.slots| - k
  {
    hide Respond;
    if k < |f.slots| {
      if Unseen(f, k) {
        ScanProbes(limits, f, k + 1);
      } else if !f.slots[k].alive {
        HandleDeadOthers(limits, f, k);
        hide Rising, Unseen, HandleDead;
        ScanProbes(limits, HandleDead(limits, f, k), k + 1);
      } else {
        var g := f.(live := f.live + [k]);
        RisingNext(f.live, k);
        assert forall j :: k < j < |f.slots| ==> Unseen(g, j) == Unseen(f, j);
        hide Rising, Unseen;
        ScanProbes(limits, g, k + 1);
      }
    }
  }

  /** Each replica probed by a scan is one it found alive, and each of those is probed once. */
  lemma ProbedOnce(limits: Limits, f: Fleet)
    requires Enabled(f, Scan)
    ensures
      var live := Next(limits, f, Scan).live;
      && Rising(live)
      && forall i: nat :: i in live <==> i < |f.slots| && !Unseen(f, i) && f.slots[i].alive
  {
    var g := f.(live := []);
    ScanProbes(limits, g, 0);
    assert forall j :: 0 <= j < |f.slots| ==> Unseen(g, j) == Unseen(f, j);
    hide ScanFrom;
  }

  /** Every replica probed takes its own answer, once, and no other replica changes. */
  lemma {:induction false} SettleExactly(limits: Limits, slots: seq<Slot>, live: seq<nat>, answers: nat -> bool, i: nat)
    requires Rising(live) && i < |slots|
    ensures |SettleAll(limits, slots, live, answers)| == |slots|
    ensures SettleAll(limits, slots, live, answers)[i] ==
              if i in live then Answered(limits, slots[i], answers(i)) else slots[i]
    decreases |live|
  {
    hide Answered;
    if live != [] {
      var k := live[0];
      var next := if k < |slots| then slots[k := Answered(limits, slots[k], answers(k))] else slots;
      SettleExactly(limits, next, live[1..], answers, i);
      assert i in live <==> i == k || i in live[1..];
      assert k !in live[1..];
    }
  }

  // ------------------------------------------------------------------ standing stopped

  /** At some point of the run a scan found no budget left for replica `i`, or restarts disabled. */
  ghost predicate RanOut(limits: Limits, f: Fleet, steps: seq<Step>, i: nat)
    requires Possible(limits, f, steps)
    decreases |steps|
  {
    && steps != []
    && (|| (steps[0].Scan? && i < |f.slots| && !f.slots[i].alive
            && (!limits.enabled || Recent(f.slots[i].history, f.now, limits.window) >= limits.maxRestarts))
        || RanOut(limits, Next(limits, f, steps[0]), steps[1..], i))
  }

  /** Only a scan that finds no budget stops a replica. */
  lemma StoppedExactly(limits: Limits, f: Fleet, s: Step, i: nat)
    requires Kept(limits, f) && Enabled(f, s) && i < |f.slots|
    ensures |Next(limits, f, s).slots| == |f.slots|
    ensures Next(limits, f, s).slots[i].entry == Some(Stopped) && f.slots[i].entry != Some(Stopped) ==>
              && s.Scan? && !f.slots[i].alive
              && (!limits.enabled || Recent(f.slots[i].history, f.now, limits.window) >= limits.maxRestarts)
  {
    HealthChecks.StepKeeps(limits, f, s);
    match s
    case Scan => ScanExactly(limits, f, i);
    case Settle(answers) => SettleStopsNone(limits, f.slots, f.live, answers, i);
    case _ =>
  }

  lemma {:induction false} SettleStopsNone(limits: Limits, slots: seq<Slot>, live: seq<nat>, answers: nat -> bool, i: nat)
    requires i < |slots|
    ensures |SettleAll(limits, slots, live, answers)| == |slots|
    ensures SettleAll(limits, slots, live, answers)[i].entry == Some(Stopped) ==> slots[i].entry == Some(Stopped)
    decreases |live|
  {
    if live != [] {
      var j := live[0];
      SettleStopsNone(limits, if j < |slots| then slots[j := Answered(limits, slots[j], answers(j))] else slots, live[1..], answers, i);
    }
  }

  /**
   * A replica stands stopped only if, at the scan that stopped it, restarts were disabled or the
   * window held as many of its restarts as are allowed.
   */
  lemma {:induction false} StoppedOnlyWhenSpent(limits: Limits, f: Fleet, steps: seq<Step>, i: nat)
    requires Kept(limits, f) && Possible(limits, f, steps) && i < |f.slots| && f.slots[i].entry != Some(Stopped)
    requires i < |Outcome(limits, f, steps).slots| && Outcome(limits, f, steps).slots[i].entry == Some(Stopped)
    ensures RanOut(limits, f, steps, i)
    decreases |steps|
  {
    var g := Next(limits, f, steps[0]);
    HealthChecks.StepKeeps(limits, f, steps[0]);
    StoppedExactly(limits, f, steps[0], i);
    if g.slots[i].entry != Some(Stopped) {
      hide Kept, Next, Enabled, Recent;
      StoppedOnlyWhenSpent(limits, g, steps[1..], i);
    }
  }

  // ------------------------------------------------------------------ probes

  /** A replica after a row of probes. */
  function Probed(limits: Limits, slot: Slot, answers: seq<bool>): Slot {
    if answers == [] then slot
    else Answered(limits, Probed(limits, slot, answers[..|answers| - 1]), answers[|answers| - 1])
  }

  /** How many probes have failed since the last that did not. */
  function Misses(answers: seq<bool>): nat {
    if answers == [] || answers[|answers| - 1] then 0 else 1 + Misses(answers[..|answers| - 1])
  }

  /**
   * A healthy replica is unhealthy after a row of probes if and only if at least the configured number
   * of them, and at least one, failed since the last success.
   */
  lemma {:induction false} ProbesExact(limits: Limits, slot: Slot, answers: seq<bool>)
    requires slot.entry == Some(Healthy) && slot.failures == 0
    ensures
      var after := Probed(limits, slot, answers);
      && after.failures == Misses(answers)
      && after == slot.(failures := after.failures, entry := after.entry)
      && after.entry == Some(if Misses(answers) >= Max(1, limits.unhealthyAfter) then Unhealthy else Healthy)
  {
    if answers != [] {
      ProbesExact(limits, slot, answers[..|answers| - 1]);
    }
  }

  // ------------------------------------------------------------------ restarts that do not come off

  /** What the router knows of a replica while it is being restarted, by how far the restart has come. */
  ghost predicate StageKept(f: Fleet, task: Task)
    requires task.index < |f.slots|
  {
    match task.stage
    case Backoff => f.slots[task.index].entry == Some(Unhealthy)
    case Launching => f.slots[task.index].entry == None
    case Readying => f.slots[task.index].entry == Some(Starting)
    case _ => true
  }

  ghost predicate StagesKept(f: Fleet) {
    forall t :: 0 <= t < |f.tasks| ==> f.tasks[t].index < |f.slots| && StageKept(f, f.tasks[t])
  }

  lemma {:induction false} ScanStages(limits: Limits, f: Fleet, k: nat)
    requires Kept(limits, f) && StagesKept(f) && LiveBelow(f, k)
    ensures StagesKept(ScanFrom(limits, f, k))
    decreases |f.slots| - k
  {
    hide Respond, Budgeted;
    if k < |f.slots| {
      if Unseen(f, k) {
        ScanStages(limits, f, k + 1);
      } else if !f.slots[k].alive {
        HandleDeadKeeps(limits, f, k);
        HandleDeadStages(limits, f, k);
        hide StagesKept, Kept;
        ScanStages(limits, HandleDead(limits, f, k), k + 1);
      } else {
        ProbingKeeps(limits, f, k);
        ScanStages(limits, f.(live := f.live + [k]), k + 1);
      }
    }
  }

  lemma HandleDeadStages(limits: Limits, f: Fleet, i: nat)
    requires Kept(limits, f) && StagesKept(f) && i < |f.slots| && i !in f.restarting
    ensures StagesKept(HandleDead(limits, f, i))
  {
    hide Respond, SlotKept, LiveKept;
    forall t | 0 <= t < |f.tasks| && !f.tasks[t].stage.Over? && !f.tasks[t].stage.Announcing? ensures f.tasks[t].index != i {
    }
  }

  lemma {:induction false} SettleOthers(limits: Limits, slots: seq<Slot>, live: seq<nat>, answers: nat -> bool, i: nat)
    requires i < |slots| && i !in live
    ensures |SettleAll(limits, slots, live, answers)| == |slots| && SettleAll(limits, slots, live, answers)[i] == slots[i]
    decreases |live|
  {
    if live != [] {
      var j := live[0];
      assert i != j && i !in live[1..];
      SettleOthers(limits, if j < |slots| then slots[j := Answered(limits, slots[j], answers(j))] else slots, live[1..], answers, i);
    }
  }

  lemma StagesStep(limits: Limits, f: Fleet, s: Step)
    requires Kept(limits, f) && StagesKept(f) && Enabled(f, s)
    ensures StagesKept(Next(limits, f, s))
  {
    hide SlotKept;
    match s
    case Clock(_) =>
    case Dies(_) =>
    case Scan => ScanStages(limits, f.(live := []), 0);
    case Settle(answers) => SettleStages(limits, f, answers);
    case Tasking(t, event) => TaskStages(limits, f, t, event);
  }

  lemma TaskStages(limits: Limits, f: Fleet, t: nat, event: Event)
    requires Kept(limits, f) && StagesKept(f) && Enabled(f, Tasking(t, event))
    ensures StagesKept(Advance(f, t, event))
  {
    hide SlotKept, LiveKept;
  }

  lemma SettleStages(limits: Limits, f: Fleet, answers: nat -> bool)
    requires Kept(limits, f) && StagesKept(f) && f.probing
    ensures StagesKept(Next(limits, f, Settle(answers)))
  {
    hide SlotKept;
    var g := Next(limits, f, Settle(answers));
    SettleKeepsLength(limits, f.slots, f.live, answers);
    forall t | 0 <= t < |f.tasks| ensures f.tasks[t].index < |g.slots| && StageKept(g, f.tasks[t]) {
      if !f.tasks[t].stage.Over? && !f.tasks[t].stage.Announcing? {
        assert f.tasks[t].index in f.restarting;
        SettleOthers(limits, f.slots, f.live, answers, f.tasks[t].index);
      }
    }
  }

  lemma {:induction false} SettleKeepsLength(limits: Limits, slots: seq<Slot>, live: seq<nat>, answers: nat -> bool)
    ensures |SettleAll(limits, slots, live, answers)| == |slots|
    decreases |live|
  {
    if live != [] {
      var j := live[0];
      SettleKeepsLength(limits, if j < |slots| then slots[j := Answered(limits, slots[j], answers(j))] else slots, live[1..], answers);
    }
  }

  lemma {:induction false} StagesRun(limits: Limits, f: Fleet, steps: seq<Step>)
    requires Kept(limits, f) && StagesKept(f) && Possible(limits, f, steps)
    ensures Kept(limits, Outcome(limits, f, steps)) && StagesKept(Outcome(limits, f, steps))
    decreases |steps|
  {
    hide Kept, StagesKept, Next, Enabled;
    if steps != [] {
      HealthChecks.StepKeeps(limits, f, steps[0]);
      StagesStep(limits, f, steps[0]);
      StagesRun(limits, Next(limits, f, steps[0]), steps[1..]);
    }
  }

  /**
   * A restart that comes to an end before its replacement has passed readiness leaves the replica to be
   * found dead by the next scan, unless it was broken off between forgetting the old router entry and
   * making the new one: then the replica is never looked at again.
   */
  lemma FailedRestartFoundAgain(limits: Limits, f: Fleet, steps: seq<Step>, t: nat, event: Event)
    requires Started(f) && Possible(limits, f, steps)
    requires
      var g := Outcome(limits, f, steps);
      && Enabled(g, Tasking(t, event)) && !g.tasks[t].stage.Announcing?
      && g.tasks[t].index < |Next(limits, g, Tasking(t, event)).slots| && t < |Next(limits, g, Tasking(t, event)).tasks|
      && Next(limits, g, Tasking(t, event)).tasks[t].stage.Over?
    ensures
      var g := Outcome(limits, f, steps);
      var i, after := g.tasks[t].index, Next(limits, g, Tasking(t, event));
      && after.slots[i].dead && !after.slots[i].alive
      && (Unseen(after, i) <==> g.tasks[t].stage.Launching? && event.Breaks?)
  {
    StartedKept(limits, f);
    StagesRun(limits, f, steps);
    var g := Outcome(limits, f, steps);
    hide Outcome, Possible, Started;
    EndsUnseen(limits, g, t, event);
  }

  lemma EndsUnseen(limits: Limits, g: Fleet, t: nat, event: Event)
    requires Kept(limits, g) && StagesKept(g) && Enabled(g, Tasking(t, event)) && !g.tasks[t].stage.Announcing?
    requires
      var after := Next(limits, g, Tasking(t, event));
      g.tasks[t].index < |after.slots| && t < |after.tasks| && after.tasks[t].stage.Over?
    ensures
      var i, after := g.tasks[t].index, Next(limits, g, Tasking(t, event));
      && after.slots[i].dead && !after.slots[i].alive
      && (Unseen(after, i) <==> g.tasks[t].stage.Launching? && event.Breaks?)
  {
    RestartingIsDead(limits, g, t);
    hide Budgeted;
  }

  /**
   * A restart under way at every await of which all goes well ends with the replica running, healthy
   * and no longer dead, and with nothing restarting it.
   */
  lemma RestartComesOff(limits: Limits, f: Fleet, t: nat)
    requires Kept(limits, f) && t < |f.tasks| && f.tasks[t].stage.Backoff?
    ensures
      var i, on := f.tasks[t].index, Tasking(t, Proceeds);
      && i < |f.slots|
      && Possible(limits, f, [on, on, on, on])
      && var g := Outcome(limits, f, [on, on, on, on]);
         && i < |g.slots| && g.slots[i].alive && g.slots[i].entry == Some(Healthy) && !g.slots[i].dead
         && g.slots[i].failures == 0 && i !in g.restarting && g.slots[i].history == f.slots[i].history
  {
    var i, on := f.tasks[t].index, Tasking(t, Proceeds);
    var f1 := Next(limits, f, on);
    var f2 := Next(limits, f1, on);
    var f3 := Next(limits, f2, on);
    var f4 := Next(limits, f3, on);
    assert f1.tasks[t] == Task(i, Launching) && f2.tasks[t] == Task(i, Readying) && f3.tasks[t] == Task(i, Announcing);
    assert f3.slots[i].alive && f3.slots[i].entry == Some(Healthy) && !f3.slots[i].dead;
    hide Next;
    assert [on, on, on, on][1..] == [on, on, on] && [on, on, on][1..] == [on, on] && [on, on][1..] == [on] && [on][1..] == [];
    assert Possible(limits, f3, [on]) && Outcome(limits, f3, [on]) == f4;
    assert Possible(limits, f2, [on, on]) && Outcome(limits, f2, [on, on]) == f4;
    assert Possible(limits, f1, [on, on, on]) && Outcome(limits, f1, [on, on, on]) == f4;
  }
}

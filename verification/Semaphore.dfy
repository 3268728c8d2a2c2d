/**
 * The counting semaphore of the event loop: a permit released while tasks wait is handed to the
 * first waiter that has none, which resumes some time later.
 */
module Semaphore {
  import opened Common

  datatype Waiter = Waiter(task: nat, granted: bool)

  datatype Permits = Permits(value: nat, queue: seq<Waiter>) {
    predicate Locked() {
      value == 0 || queue != []
    }
  }

  predicate HasUngranted(queue: seq<Waiter>) {
    queue != [] && (!queue[0].granted || HasUngranted(queue[1..]))
  }

  /** Hand a permit to the first waiter that has none. */
  function GrantFirst(queue: seq<Waiter>): seq<Waiter> {
    if queue == [] then []
    else if queue[0].granted then [queue[0]] + GrantFirst(queue[1..])
    else [queue[0].(granted := true)] + queue[1..]
  }

  /** Hand out one free permit, if there is one and someone lacks one. */
  function WakeOne(p: Permits): Permits {
    if p.value > 0 && HasUngranted(p.queue) then Permits(p.value - 1, GrantFirst(p.queue)) else p
  }

  /** Hand out every free permit someone lacks. */
  function WakeAll(p: Permits): Permits
    decreases p.value
  {
    if p.value > 0 && HasUngranted(p.queue) then WakeAll(Permits(p.value - 1, GrantFirst(p.queue))) else p
  }

  function Without(queue: seq<Waiter>, task: nat): seq<Waiter> {
    if queue == [] then []
    else if queue[0].task == task then queue[1..]
    else [queue[0]] + Without(queue[1..], task)
  }

  predicate Queued(queue: seq<Waiter>, task: nat) {
    queue != [] && (queue[0].task == task || Queued(queue[1..], task))
  }

  predicate Granted(queue: seq<Waiter>, task: nat) {
    queue != [] && (if queue[0].task == task then queue[0].granted else Granted(queue[1..], task))
  }

  // ------------------------------------------------------------------ operations

  /** Take a free permit without waiting. */
  function TakeFree(p: Permits): Permits
    requires !p.Locked()
  {
    p.(value := p.value - 1)
  }

  function Join(p: Permits, task: nat): Permits {
    p.(queue := p.queue + [Waiter(task, false)])
  }

  /** Give a permit back: one waiter is woken. */
  function Release(p: Permits): Permits {
    WakeOne(p.(value := p.value + 1))
  }

  /** A granted waiter resumes, keeps its permit and wakes as many others as it can. */
  function Resume(p: Permits, task: nat): Permits {
    WakeAll(p.(queue := Without(p.queue, task)))
  }

  /** A waiter is cancelled; a permit it had been handed goes back. */
  function Leave(p: Permits, task: nat): Permits {
    WakeAll(Permits(p.value + (if Granted(p.queue, task) then 1 else 0), Without(p.queue, task)))
  }

  /** Release where there may be no limit at all. */
  function ReleaseAny(p: Option<Permits>): Option<Permits> {
    if p.Some? then Some(Release(p.value)) else None
  }

  /** A limit of zero is no limit. */
  function PermitsFor(limit: Option<nat>): Option<Permits> {
    if limit.Some? && limit.value > 0 then Some(Permits(limit.value, [])) else None
  }

  // ------------------------------------------------------------------ what is conserved

  function GrantedCount(queue: seq<Waiter>): nat {
    if queue == [] then 0 else (if queue[0].granted then 1 else 0) + GrantedCount(queue[1..])
  }

  /** Permits nobody uses yet: free ones, and ones handed to tasks that have not resumed. */
  function Units(p: Permits): nat {
    p.value + GrantedCount(p.queue)
  }

  predicate Fifo(queue: seq<Waiter>) {
    queue != [] ==> (!queue[0].granted ==> GrantedCount(queue) == 0) && Fifo(queue[1..])
  }

  /**
   * Permits go out in order of arrival, and no wake-up is lost: while a permit is free, a task waits
   * without one only behind a task that has been handed one and will wake the rest when it resumes.
   */
  predicate Fair(p: Permits) {
    && (p.value > 0 && HasUngranted(p.queue) ==> GrantedCount(p.queue) > 0)
    && Fifo(p.queue)
  }

  lemma SomeoneGranted(queue: seq<Waiter>)
    requires queue != [] && !HasUngranted(queue)
    ensures GrantedCount(queue) > 0
  {
  }

  lemma {:induction false} GrantFirstKeeps(queue: seq<Waiter>)
    requires HasUngranted(queue)
    ensures GrantedCount(GrantFirst(queue)) == GrantedCount(queue) + 1
    ensures |GrantFirst(queue)| == |queue|
    ensures Fifo(queue) ==> Fifo(GrantFirst(queue))
  {
    if queue[0].granted {
      GrantFirstKeeps(queue[1..]);
    }
  }

  lemma {:induction false} WakeAllKeeps(p: Permits)
    ensures Units(WakeAll(p)) == Units(p) && |WakeAll(p).queue| == |p.queue|
    ensures WakeAll(p).value > 0 ==> !HasUngranted(WakeAll(p).queue)
    ensures Fifo(p.queue) ==> Fifo(WakeAll(p).queue)
    decreases p.value
  {
    if p.value > 0 && HasUngranted(p.queue) {
      GrantFirstKeeps(p.queue);
      WakeAllKeeps(Permits(p.value - 1, GrantFirst(p.queue)));
    }
  }

  lemma WakeOneKeeps(p: Permits)
    ensures Units(WakeOne(p)) == Units(p) && |WakeOne(p).queue| == |p.queue|
    ensures HasUngranted(WakeOne(p).queue) && WakeOne(p).value > 0 ==> GrantedCount(WakeOne(p).queue) > 0
    ensures Fifo(p.queue) ==> Fifo(WakeOne(p).queue)
  {
    if p.value > 0 && HasUngranted(p.queue) {
      GrantFirstKeeps(p.queue);
    }
  }

  lemma {:induction false} WithoutKeeps(queue: seq<Waiter>, task: nat)
    requires Queued(queue, task)
    ensures |Without(queue, task)| == |queue| - 1
    ensures GrantedCount(Without(queue, task)) == GrantedCount(queue) - (if Granted(queue, task) then 1 else 0)
    ensures Fifo(queue) ==> Fifo(Without(queue, task))
  {
    if queue[0].task != task {
      WithoutKeeps(queue[1..], task);
    }
  }

  lemma {:induction false} JoinKeeps(queue: seq<Waiter>, task: nat)
    ensures GrantedCount(queue + [Waiter(task, false)]) == GrantedCount(queue)
    ensures Fifo(queue) ==> Fifo(queue + [Waiter(task, false)])
  {
    if queue != [] {
      assert (queue + [Waiter(task, false)])[1..] == queue[1..] + [Waiter(task, false)];
      JoinKeeps(queue[1..], task);
    }
  }

  /** Every operation accounts for exactly the permit it moves, and all of them stay fair. */
  lemma OperationsConserve(p: Permits, task: nat)
    requires Fair(p)
    ensures !p.Locked() ==> Fair(TakeFree(p)) && Units(TakeFree(p)) == Units(p) - 1
    ensures p.Locked() ==>
              Fair(Join(p, task)) && Units(Join(p, task)) == Units(p) && |Join(p, task).queue| == |p.queue| + 1
    ensures Fair(Release(p)) && Units(Release(p)) == Units(p) + 1 && |Release(p).queue| == |p.queue|
    ensures Granted(p.queue, task) && Queued(p.queue, task) ==>
              && Fair(Resume(p, task)) && Units(Resume(p, task)) == Units(p) - 1
              && |Resume(p, task).queue| == |p.queue| - 1
    ensures Queued(p.queue, task) ==>
              && Fair(Leave(p, task)) && Units(Leave(p, task)) == Units(p) && |Leave(p, task).queue| == |p.queue| - 1
  {
    JoinKeeps(p.queue, task);
    if p.queue != [] && !HasUngranted(p.queue) {
      SomeoneGranted(p.queue);
    }
    WakeOneKeeps(p.(value := p.value + 1));
    if Queued(p.queue, task) {
      WithoutKeeps(p.queue, task);
      WakeAllKeeps(p.(queue := Without(p.queue, task)));
      WakeAllKeeps(Permits(p.value + (if Granted(p.queue, task) then 1 else 0), Without(p.queue, task)));
    }
  }

  // ------------------------------------------------------------------ who is in line

  /** No task waits twice. */
  predicate InLine(queue: seq<Waiter>) {
    queue == [] || (!Queued(queue[1..], queue[0].task) && InLine(queue[1..]))
  }

  lemma {:induction false} GrantFirstSameLine(queue: seq<Waiter>, t: nat)
    ensures Queued(GrantFirst(queue), t) == Queued(queue, t)
    ensures InLine(queue) ==> InLine(GrantFirst(queue))
  {
    if queue != [] && queue[0].granted {
      GrantFirstSameLine(queue[1..], t);
      GrantFirstSameLine(queue[1..], queue[0].task);
    }
  }

  lemma {:induction false} WakeAllSameLine(p: Permits, t: nat)
    ensures Queued(WakeAll(p).queue, t) == Queued(p.queue, t)
    ensures InLine(p.queue) ==> InLine(WakeAll(p).queue)
    decreases p.value
  {
    if p.value > 0 && HasUngranted(p.queue) {
      GrantFirstSameLine(p.queue, t);
      WakeAllSameLine(Permits(p.value - 1, GrantFirst(p.queue)), t);
    }
  }

  lemma {:induction false} WithoutLine(queue: seq<Waiter>, task: nat, t: nat)
    ensures !Queued(queue, t) ==> !Queued(Without(queue, task), t)
    ensures InLine(queue) ==>
              (Queued(Without(queue, task), t) <==> Queued(queue, t) && t != task) && InLine(Without(queue, task))
  {
    if queue != [] && queue[0].task != task {
      WithoutLine(queue[1..], task, t);
      WithoutLine(queue[1..], task, queue[0].task);
    }
  }

  lemma {:induction false} JoinLine(queue: seq<Waiter>, task: nat, t: nat)
    ensures Queued(queue + [Waiter(task, false)], t) <==> Queued(queue, t) || t == task
    ensures InLine(queue) && !Queued(queue, task) ==> InLine(queue + [Waiter(task, false)])
  {
    if queue != [] {
      assert (queue + [Waiter(task, false)])[1..] == queue[1..] + [Waiter(task, false)];
      JoinLine(queue[1..], task, t);
      JoinLine(queue[1..], task, queue[0].task);
    }
  }

  lemma {:induction false} GrantedIsQueued(queue: seq<Waiter>, task: nat)
    requires Granted(queue, task)
    ensures Queued(queue, task)
  {
    if queue[0].task != task {
      GrantedIsQueued(queue[1..], task);
    }
  }

  /** Who is in line after each operation. */
  lemma OperationsKeepLine(p: Permits, task: nat, t: nat)
    ensures Queued(Release(p).queue, t) == Queued(p.queue, t)
    ensures Queued(Join(p, task).queue, t) <==> Queued(p.queue, t) || t == task
    ensures !Queued(p.queue, t) ==> !Queued(Resume(p, task).queue, t) && !Queued(Leave(p, task).queue, t)
    ensures InLine(p.queue) ==>
              && InLine(Release(p).queue) && (!Queued(p.queue, task) ==> InLine(Join(p, task).queue))
              && InLine(Resume(p, task).queue) && (Queued(Resume(p, task).queue, t) <==> Queued(p.queue, t) && t != task)
              && InLine(Leave(p, task).queue) && (Queued(Leave(p, task).queue, t) <==> Queued(p.queue, t) && t != task)
  {
    if HasUngranted(p.queue) {
      GrantFirstSameLine(p.queue, t);
    }
    JoinLine(p.queue, task, t);
    WithoutLine(p.queue, task, t);
    WakeAllSameLine(p.(queue := Without(p.queue, task)), t);
    WakeAllSameLine(Permits(p.value + (if Granted(p.queue, task) then 1 else 0), Without(p.queue, task)), t);
  }

  // ------------------------------------------------------------------ a semaphore nobody releases any more

  /** All that still happens to a semaphore that was replaced: waiters it granted a permit resume, and waiters give up. */
  datatype Departure = Resumes(task: nat) | Leaves(task: nat)

  predicate MayDepart(p: Permits, d: Departure) {
    Queued(p.queue, d.task) && (d.Resumes? ==> Granted(p.queue, d.task))
  }

  function Departed(p: Permits, d: Departure): Permits {
    if d.Resumes? then Resume(p, d.task) else Leave(p, d.task)
  }

  predicate MayAllDepart(p: Permits, ds: seq<Departure>)
    decreases |ds|
  {
    ds == [] || (MayDepart(p, ds[0]) && MayAllDepart(Departed(p, ds[0]), ds[1..]))
  }

  function Resumed(ds: seq<Departure>): nat {
    if ds == [] then 0 else (if ds[0].Resumes? then 1 else 0) + Resumed(ds[1..])
  }

  /** No more waiters of a replaced semaphore ever resume than it had permits left. */
  lemma {:induction false} RetiredServesItsUnits(p: Permits, ds: seq<Departure>)
    requires Fair(p) && MayAllDepart(p, ds)
    ensures Resumed(ds) <= Units(p)
    decreases |ds|
  {
    if ds != [] {
      OperationsConserve(p, ds[0].task);
      RetiredServesItsUnits(Departed(p, ds[0]), ds[1..]);
    }
  }

  /** If none of them had been handed a permit, none ever resumes. */
  lemma RetiredServesNobody(p: Permits, ds: seq<Departure>)
    requires Fair(p) && p.queue != [] && GrantedCount(p.queue) == 0 && MayAllDepart(p, ds)
    ensures forall d :: d in ds ==> d.Leaves?
  {
    if !HasUngranted(p.queue) {
      SomeoneGranted(p.queue);
    }
    RetiredServesItsUnits(p, ds);
    NoneResumed(ds);
  }

  lemma {:induction false} NoneResumed(ds: seq<Departure>)
    requires Resumed(ds) == 0
    ensures forall d :: d in ds ==> d.Leaves?
  {
    if ds != [] {
      NoneResumed(ds[1..]);
      assert ds == [ds[0]] + ds[1..];
    }
  }
}

/** The interface of `tasks.cpp` as labelled steps, and the invariant of every run. */
module KernelApi {
  import opened Basics
  import opened Rings
  import opened KernelModel
  import opened KernelSteps

  // ----- operations

  /** `remove()` followed by `taskRESET_READY_PRIORITY`, for a task in any state. */
  function Leave(k: K, t: Task): K
    requires t in k.tcb
  {
    var k' := Take(k, State, t);
    if k.tcb[t].stateIn.Some? && Items(k', k.tcb[t].stateIn.value) == [] && Items(k', Ready(k.tcb[t].prio)) == []
    then k'.(top := k'.top - {k.tcb[t].prio}) else k'
  }

  function Relabel(k: K, t: Task, tcb: Tcb): K {
    k.(tcb := k.tcb[t := tcb])
  }

  /** Move a ready task to the list of a new priority, or just note the new priority of another. */
  function Reprioritise(k: K, t: Task, prio: nat, base: nat, eventValue: nat): K
    requires t in k.tcb
  {
    if k.tcb[t].stateIn == Some(Ready(k.tcb[t].prio)) then
      var k1 := Unready(k, t);
      AddReady(Relabel(k1, t, k1.tcb[t].(prio := prio, base := base, eventValue := eventValue)), t)
    else Relabel(k, t, k.tcb[t].(prio := prio, base := base, eventValue := eventValue))
  }

  function EventValueFor(tcb: Tcb, prio: nat): nat
    requires prio <= MAX_PRIORITIES
  {
    if tcb.eventValue < VALUE_IN_USE then MAX_PRIORITIES - prio else tcb.eventValue
  }

  function SetPriority(k: K, t: Task, newPriority: nat): K
    requires t in k.tcb
  {
    var p := if newPriority >= MAX_PRIORITIES then MAX_PRIORITIES - 1 else newPriority;
    var tcb := k.tcb[t];
    if tcb.base == p then k
    else Reprioritise(k, t, if tcb.base == tcb.prio || p > tcb.prio then p else tcb.prio, p, EventValueFor(tcb, p))
  }

  function CreateTask(k: K, t: Task, priority: nat): K
    requires t !in k.tcb
  {
    AddReady(Enrol(k, t, NewTcb(priority)), t)
  }

  function NewTcb(priority: nat): Tcb {
    var p := if priority >= MAX_PRIORITIES then MAX_PRIORITIES - 1 else priority;
    Tcb(p, p, 0, None, 0, None, MAX_PRIORITIES - p, false, NotWaiting)
  }

  function Enrol(k: K, t: Task, tcb: Tcb): K {
    k.(numTasks := k.numTasks + 1, tcb := k.tcb[t := tcb])
  }

  function Forget(k: K, t: Task): K {
    k.(tcb := k.tcb - {t})
  }

  function Pred(n: nat): nat {
    if n == 0 then 0 else n - 1
  }

  function DeleteTask(k: K, t: Task): K
    requires t in k.tcb
  {
    var k1 := Take(Leave(k, t), EventItem, t);
    if t == k.current then
      var k2 := AppendTo(k1, t, WaitingTermination);
      k2.(deletedWaiting := k2.deletedWaiting + 1)
    else Forget(ResetNext(k1.(numTasks := Pred(k1.numTasks))), t)
  }

  /** One round of `CheckTasksWaitingTermination`. */
  function CleanUp(k: K): K {
    if Items(k, WaitingTermination) == [] || Head(k, WaitingTermination) !in k.tcb then k
    else
      var t := Head(k, WaitingTermination);
      Forget(Take(k, State, t).(numTasks := Pred(k.numTasks), deletedWaiting := Pred(k.deletedWaiting)), t)
  }

  function SuspendTask(k: K, t: Task): K
    requires t in k.tcb
  {
    var k1 := AppendTo(Take(Leave(k, t), EventItem, t), t, SuspendedTasks);
    ResetNext(Relabel(k1, t, if k1.tcb[t].notify.Waiting? then k1.tcb[t].(notify := NotWaiting) else k1.tcb[t]))
  }

  /** `TCB_t::Suspended`. */
  predicate IsSuspended(tcb: Tcb) {
    tcb.stateIn == Some(SuspendedTasks) && tcb.eventIn.None? && !tcb.notify.Waiting?
  }

  /** `StateListItem.remove(); AddTaskToReadyList`. */
  function Reready(k: K, t: Task): K
    requires t in k.tcb
  {
    AddReady(Take(k, State, t), t)
  }

  function ResumeTask(k: K, t: Task): K
    requires t in k.tcb
  {
    if t != k.current && IsSuspended(k.tcb[t]) then Reready(k, t) else k
  }

  function ResumeFromISR(k: K, t: Task): K
    requires t in k.tcb
  {
    if !IsSuspended(k.tcb[t]) then k
    else if k.suspended == 0 then Reready(k, t)
    else AppendTo(k, t, PendingReady)
  }

  /** `TaskGetState(t) == eBlocked`. */
  predicate IsBlocked(k: K, t: Task)
    requires t in k.tcb
  {
    var tcb := k.tcb[t];
    && t != k.current && tcb.eventIn != Some(PendingReady)
    && (tcb.stateIn == Some(k.delayed) || tcb.stateIn == Some(k.overflow)
        || (tcb.stateIn == Some(SuspendedTasks) && (tcb.eventIn.Some? || tcb.notify.Waiting?)))
  }

  function AbortDelay(k: K, t: Task): K
    requires t in k.tcb
  {
    if !IsBlocked(k, t) then k
    else Rouse(Relabel(k, t, k.tcb[t].(delayAborted := k.tcb[t].delayAborted || k.tcb[t].eventIn.Some?)), t, State)
  }

  function BlockOn(k: K, q: nat, ticks: nat): K
    requires k.current in k.tcb
  {
    DelayCurrent(InsertInto(k, k.current, Event(q)), ticks, true)
  }

  /** `RemoveFromEventList`. */
  function WakeFrom(k: K, q: nat): K
    requires Items(k, Event(q)) != []
  {
    var t := Head(k, Event(q));
    if t !in k.tcb then k
    else if k.suspended == 0 then Rouse(k, t, EventItem)
    else AppendTo(Take(k, EventItem, t), t, PendingReady)
  }

  function NotifyTask(k: K, t: Task): K
    requires t in k.tcb
  {
    var k1 := Relabel(k, t, k.tcb[t].(notify := Received));
    if k.tcb[t].notify.Waiting? then Reready(k1, t) else k1
  }

  function NotifyFromISR(k: K, t: Task): K
    requires t in k.tcb
  {
    var k1 := Relabel(k, t, k.tcb[t].(notify := Received));
    if !k.tcb[t].notify.Waiting? then k1
    else if k.suspended == 0 then Reready(k1, t)
    else AppendTo(k1, t, PendingReady)
  }

  function WaitBegin(k: K): K
    requires k.current in k.tcb
  {
    var tcb := k.tcb[k.current];
    if tcb.notify.Received? then k else Relabel(k, k.current, tcb.(notify := Waiting))
  }

  function WaitEnd(k: K): K
    requires k.current in k.tcb
  {
    Relabel(k, k.current, k.tcb[k.current].(notify := NotWaiting))
  }

  function Tick(k: K): K {
    if k.suspended == 0 then ProcessTick(k) else k.(pended := Wrap(k.pended + 1))
  }

  /** `portGET_HIGHEST_PRIORITY`: the highest set bit below n. */
  function HighestBit(top: set<nat>, n: nat): (p: nat)
    requires exists b :: b in top && b < n
    ensures p in top && p < n && forall b :: b in top && b < n ==> b <= p
  {
    if n - 1 in top then n - 1 else HighestBit(top, n - 1)
  }

  function Switch(k: K): K {
    if k.suspended != 0 || (forall b :: b in k.top ==> b >= MAX_PRIORITIES) then k
    else
      var id := Ready(HighestBit(k.top, MAX_PRIORITIES));
      if Items(k, id) == [] then k
      else
        var r := Advance(ListOf(k, id));
        k.(lists := k.lists[id := r], current := r.items[r.cursor - 1])
  }

  /** The loop of `ResumeAll` over the pending-ready list, whose items are `ts`. */
  function Drain(k: K, ts: seq<Task>): K
    decreases |ts|
  {
    if ts == [] || ts[0] !in k.tcb then k else Drain(Rouse(k, ts[0], EventItem), ts[1..])
  }

  /** A step taken n times over. */
  function Times<S>(step: S -> S, n: nat, s: S): S
    decreases n
  {
    if n == 0 then s else Times(step, n - 1, step(s))
  }

  /** The replay loop of `ResumeAll`: n ticks, one after the other. */
  function TickN(k: K, n: nat): K {
    Times(ProcessTick, n, k)
  }

  /** Ready the tasks that events have woken while the scheduler was suspended. */
  function MovePending(k: K): K {
    var ts := Items(k, PendingReady);
    if ts == [] then Drain(k, ts) else ResetNext(Drain(k, ts))
  }

  /** Replay the ticks that came in the meantime. */
  function CatchUpPended(k: K): K {
    TickN(k, k.pended).(pended := 0)
  }

  /** `ResumeAll`. */
  function ResumeAll(k: K): K {
    var k1 := k.(suspended := Pred(k.suspended));
    if k1.suspended > 0 || k1.numTasks == 0 then k1 else CatchUpPended(MovePending(k1))
  }
}

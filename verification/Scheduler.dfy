/** The scheduler as the source writes it: fields updated in place by methods with loops, each
    method proved to compute the corresponding operation on the kernel's value. */
module Scheduler {
  import opened Basics
  import opened Rings
  import opened KernelModel
  import opened KernelSteps
  import opened KernelApi
  import opened KernelInvariant
  import opened KernelRuns
  import opened KernelSwitches
  import opened KernelTicks
  import opened Mutex
  import Periods

  class Kernel {
    var lists: map<ListId, Ring<Task>>
    var tcb: map<Task, Tcb>
    var TopReadyPriority: set<nat>
    var CurrentTCB: Task
    var DelayedTasks: ListId
    var OverflowDelayed: ListId
    var TickCount: nat
    var NOverflows: nat
    var NextTaskUnblockTime: nat
    var PendedTicks: nat
    var SchedulerSuspended: nat
    var CurrentNumberOfTasks: nat
    var DeletedTasksWaitingCleanUp: nat
    /** `YieldPendings[0]`: a switch has been asked for and has not come yet. */
    var YieldPending: bool
    ghost var clock: nat
    ghost var due: map<Task, nat>

    ghost function Abs(): K
      reads this
    {
      K(lists, tcb, TopReadyPriority, CurrentTCB, DelayedTasks, OverflowDelayed, TickCount, NOverflows,
        NextTaskUnblockTime, PendedTicks, SchedulerSuspended, CurrentNumberOfTasks, DeletedTasksWaitingCleanUp,
        clock, due)
    }

    function Get(id: ListId): Ring<Task>
      reads this
      ensures Get(id) == ListOf(Abs(), id)
    {
      if id in lists then lists[id] else Ring([], 0)
    }

    /** The kernel as the first created task leaves it. */
    constructor (t: Task, priority: nat)
      ensures Abs() == Boot(t, priority) && Inv(Abs()) && IsReady(Abs(), t) && CurrentTCB == t &&
              SchedulerSuspended == 0
      ensures tcb.Keys == {t} && clock == 0 && DelayedTasks != OverflowDelayed && !YieldPending
    {
      lists, tcb, TopReadyPriority, CurrentTCB := map[], map[t := NewTcb(priority)], {}, t;
      DelayedTasks, OverflowDelayed, TickCount, NOverflows := DelayedTasks1, DelayedTasks2, 0, 0;
      NextTaskUnblockTime, PendedTicks, SchedulerSuspended := MAX_DELAY, 0, 0;
      CurrentNumberOfTasks, DeletedTasksWaitingCleanUp, YieldPending := 1, 0, false;
      clock, due := 0, map[];
      new;
      BootInv(t, priority);
      AddTaskToReadyList(t);
    }

    // ----- list items

    /** `Item_t::remove` if the item is on a list; returns the length left on that list. */
    method RemoveItem(kind: Kind, t: Task) returns (left: nat)
      requires Links(Abs()) && t in tcb
      modifies this`lists, this`tcb
      ensures Abs() == Take(old(Abs()), kind, t)
      ensures old(tcb[t].Container(kind)).Some? ==> left == |Items(Abs(), old(tcb[t].Container(kind)).value)|
    {
      left := 0;
      var c := tcb[t].Container(kind);
      assert Linked(Abs(), t, c, kind);
      if c.Some? {
        var r := Remove(Get(c.value), t);
        left := |r.items|;
        lists := lists[c.value := r];
        tcb := tcb[t := tcb[t].SetContainer(kind, None)];
      }
    }

    method AppendItem(t: Task, id: ListId)
      requires t in tcb
      modifies this`lists, this`tcb
      ensures Abs() == AppendTo(old(Abs()), t, id)
    {
      lists := lists[id := Append(Get(id), t)];
      tcb := tcb[t := tcb[t].SetContainer(KindOf(id), Some(id))];
    }

    /** `List_t::insert`: walk until the next item has a larger key. */
    method InsertItem(t: Task, id: ListId)
      requires Links(Abs()) && t in tcb
      modifies this`lists, this`tcb
      ensures Abs() == InsertInto(old(Abs()), t, id)
    {
      var r := Get(id);
      var key := tcb[t].Key(KindOf(id));
      var pos := 0;
      ghost var keys := Keys(Abs(), id);
      KeysOnList(Abs(), id);
      hide Links, Keys;
      while pos < |r.items| && tcb[r.items[pos]].Key(KindOf(id)) <= key
        invariant pos <= |r.items|
        invariant forall i :: 0 <= i < pos ==> keys[i] <= key
      {
        pos := pos + 1;
      }
      FirstLarger(keys, key, pos);
      lists := lists[id := Place(r, pos, t)];
      tcb := tcb[t := tcb[t].SetContainer(KindOf(id), Some(id))];
    }

    static lemma KeysOnList(k: K, id: ListId)
      requires Links(k)
      ensures forall i :: 0 <= i < |Items(k, id)| ==>
                  Items(k, id)[i] in k.tcb && Keys(k, id)[i] == k.tcb[Items(k, id)[i]].Key(KindOf(id))
    {
      assert forall i :: 0 <= i < |Items(k, id)| ==> Items(k, id)[i] in Items(k, id);
    }

    static lemma FirstLarger(keys: seq<nat>, key: nat, pos: nat)
      requires pos <= |keys| && (forall i :: 0 <= i < pos ==> keys[i] <= key) && (pos < |keys| ==> key < keys[pos])
      ensures InsertPos(keys, key) == pos
    {
    }

    method AddTaskToReadyList(t: Task)
      requires t in tcb
      modifies this`lists, this`tcb, this`TopReadyPriority
      ensures Abs() == AddReady(old(Abs()), t)
    {
      TopReadyPriority := TopReadyPriority + {tcb[t].prio};
      AppendItem(t, Ready(tcb[t].prio));
    }

    // ----- time

    method ResetNextTaskUnblockTime()
      requires Links(Abs())
      modifies this`NextTaskUnblockTime
      ensures Abs() == ResetNext(old(Abs()))
    {
      if Get(DelayedTasks).items == [] {
        NextTaskUnblockTime := MAX_DELAY;
      } else {
        var head := Get(DelayedTasks).items[0];
        assert head in Items(Abs(), DelayedTasks);
        assert KindOf(DelayedTasks).State? ==> Keys(Abs(), DelayedTasks)[0] == tcb[head].wake;
        NextTaskUnblockTime := tcb[head].Key(KindOf(DelayedTasks));
      }
    }

    method SwitchDelayedLists()
      requires Links(Abs())
      modifies this`DelayedTasks, this`OverflowDelayed, this`NOverflows, this`NextTaskUnblockTime
      ensures Abs() == KernelSteps.SwitchDelayedLists(old(Abs()))
    {
      SameTasks(Abs(), Abs().(delayed := OverflowDelayed, overflow := DelayedTasks, nOverflows := NOverflows + 1));
      DelayedTasks, OverflowDelayed := OverflowDelayed, DelayedTasks;
      NOverflows := NOverflows + 1;
      ResetNextTaskUnblockTime();
    }

    /** `if (remove() == 0) portRESET_READY_PRIORITY(Priority)`, for a task that is on a list. */
    method Unready(t: Task)
      requires Links(Abs()) && t in tcb && tcb[t].stateIn.Some?
      modifies this`lists, this`tcb, this`TopReadyPriority
      ensures Abs() == KernelModel.Unready(old(Abs()), t) && Links(Abs())
      ensures t in tcb && tcb[t] == old(tcb[t]).(stateIn := None)
    {
      TakeLinks(Abs(), State, t);
      var left := RemoveItem(State, t);
      ghost var k1 := Abs();
      if left == 0 {
        TopReadyPriority := TopReadyPriority - {tcb[t].prio};
      }
      SameTasks(k1, Abs());
    }

    /** The second half of `AddCurrentTaskToDelayedList`. */
    method File(t: Task, ticks: nat, canBlockIndefinitely: bool)
      requires Links(Abs()) && t in tcb && KindOf(DelayedTasks).State? && KindOf(OverflowDelayed).State?
      modifies this`lists, this`tcb, this`NextTaskUnblockTime, this`due
      ensures Abs() == KernelSteps.File(old(Abs()), t, ticks, canBlockIndefinitely)
    {
      hide Links, Place, InsertPos, Keys;
      if ticks == MAX_DELAY && canBlockIndefinitely {
        AppendItem(t, SuspendedTasks);
      } else {
        ghost var k := Abs();
        var wake := Wrap(TickCount + ticks);
        tcb := tcb[t := tcb[t].(wake := wake)];
        due := due[t := clock + ticks];
        assert Abs() == Dated(k, t, ticks, k.nextUnblock);
        RunningIsKnown(k);
        LinksFrame(k, Abs());
        if wake < TickCount {
          InsertItem(t, OverflowDelayed);
        } else {
          CacheIsNoKey(Abs(), t, DelayedTasks, Min(wake, k.nextUnblock));
          InsertItem(t, DelayedTasks);
          if wake < NextTaskUnblockTime {
            NextTaskUnblockTime := wake;
          }
        }
      }
    }

    static lemma CacheIsNoKey(k: K, t: Task, id: ListId, next: nat)
      requires Links(k) && t in k.tcb
      ensures InsertInto(k.(nextUnblock := next), t, id) == InsertInto(k, t, id).(nextUnblock := next)
    {
      SameTasks(k, k.(nextUnblock := next));
    }

    method AddCurrentTaskToDelayedList(ticks: nat, canBlockIndefinitely: bool)
      requires Links(Abs()) && tcb[CurrentTCB].stateIn.Some? && KindOf(DelayedTasks).State? &&
               KindOf(OverflowDelayed).State?
      modifies this`lists, this`tcb, this`TopReadyPriority, this`NextTaskUnblockTime, this`due
      ensures Abs() == DelayCurrent(old(Abs()), ticks, canBlockIndefinitely)
    {
      ghost var k := Abs();
      var t := CurrentTCB;
      tcb := tcb[t := tcb[t].(delayAborted := false)];
      LinksFrame(k, Abs());
      Unready(t);
      File(t, ticks, canBlockIndefinitely);
    }

    method Rouse(t: Task, first: Kind)
      requires Links(Abs()) && t in tcb
      modifies this`lists, this`tcb, this`TopReadyPriority
      ensures Abs() == KernelSteps.Rouse(old(Abs()), t, first)
    {
      TakeLinks(Abs(), first, t);
      var left := RemoveItem(first, t);
      left := RemoveItem(Other(first), t);
      AddTaskToReadyList(t);
    }

    /** `TaskIncrementTick`. While the scheduler runs it readies the tasks whose time has come, and asks for a
        switch if one of them outranks the running task, or that has to share its priority, or a switch
        is due anyway. */
    method TaskIncrementTick() returns (switchRequired: bool)
      requires Inv(Abs())
      modifies this`lists, this`tcb, this`TopReadyPriority, this`DelayedTasks, this`OverflowDelayed
      modifies this`TickCount, this`NOverflows, this`NextTaskUnblockTime, this`PendedTicks, this`clock
      ensures Abs() == Tick(old(Abs())) && Inv(Abs())
      ensures if SchedulerSuspended == 0 then TickedBetween(old(Abs()), 1, Abs())
              else Abs() == old(Abs()).(pended := PendedTicks)
      ensures switchRequired <==> SchedulerSuspended == 0 && (YieldPending || WantsSwitch(old(Abs()), Abs()))
    {
      hide Inv, Ticked, WakesUrgent, AdvanceTick;
      ghost var k := Abs();
      switchRequired := false;
      if SchedulerSuspended == 0 {
        ghost var k' := ProcessTickInv(k);
        CurrentKept(k, k');
        switchRequired := MoveTime();
        var current := tcb[CurrentTCB].prio;
        if |Get(Ready(current)).items| > 1 {
          switchRequired := true;
        }
        if YieldPending {
          switchRequired := true;
        }
      } else {
        ghost var k' := Resuspended(k, SchedulerSuspended, Wrap(PendedTicks + 1));
        PendedTicks := Wrap(PendedTicks + 1);
      }
    }

    static lemma CurrentKept(k: K, k': K)
      requires Inv(k) && Inv(k') && TickedBetween(k, 1, k')
      ensures Steady(k) && k'.current == k.current && k.current in k.tcb && k.current in k'.tcb
      ensures k'.tcb[k.current].prio == k.tcb[k.current].prio && k'.suspended == k.suspended && k'.pended == k.pended
    {
      assert k'.tcb[k.current] == TickedTcb(k, k.current, k'.clock);
    }

    /** The clock moves on, and the wake-up loop runs if the cached time has come. */
    method MoveTime() returns (switchRequired: bool)
      requires Steady(Abs())
      modifies this`lists, this`tcb, this`TopReadyPriority, this`DelayedTasks, this`OverflowDelayed
      modifies this`TickCount, this`NOverflows, this`NextTaskUnblockTime, this`clock
      ensures Abs() == ProcessTick(old(Abs()))
      ensures switchRequired <==> WakesUrgent(old(Abs()), clock)
    {
      hide Links, Bitmap, Priorities, WakesUrgent, DueUrgent, DueNow, Scannable;
      switchRequired := false;
      ghost var k := Abs();
      ghost var k1 := AdvanceOk(k);
      TickCount := Wrap(TickCount + 1);
      clock := clock + 1;
      if TickCount == 0 {
        RunningIsKnown(k);
        SameTasks(k, Abs());
        SwitchDelayedLists();
      }
      assert Abs() == k1;
      UrgentAtScan(k, k1);
      if TickCount >= NextTaskUnblockTime {
        switchRequired := WakeDueTasks();
      }
    }

    static lemma UrgentAtScan(k: K, k1: K)
      requires Steady(k) && k1 == AdvanceTick(k)
      ensures WakesUrgent(k, k1.clock) <==> DueUrgent(k1, Items(k1, k1.delayed))
      ensures k1.tick < k1.nextUnblock ==> !DueUrgent(k1, Items(k1, k1.delayed))
    {
      var advanced := AdvanceOk(k);
      AdvanceUrgent(k, k1);
    }

    /** The wake-up loop of `TaskIncrementTick`. It asks for a switch if one of the tasks it wakes outranks
        the running one. */
    method WakeDueTasks() returns (switchRequired: bool)
      requires Scannable(Abs(), Items(Abs(), DelayedTasks))
      modifies this`lists, this`tcb, this`TopReadyPriority, this`NextTaskUnblockTime
      ensures Abs() == WakeDue(old(Abs()), old(Items(Abs(), DelayedTasks)))
      ensures switchRequired <==> DueUrgent(old(Abs()), old(Items(Abs(), DelayedTasks)))
    {
      hide KernelSteps.Rouse, DueUrgent;
      switchRequired := false;
      ghost var goal := WakeDue(Abs(), Items(Abs(), DelayedTasks));
      ghost var urgent := DueUrgent(Abs(), Items(Abs(), DelayedTasks));
      while true
        invariant Scannable(Abs(), Items(Abs(), DelayedTasks))
        invariant WakeDue(Abs(), Items(Abs(), DelayedTasks)) == goal
        invariant switchRequired || DueUrgent(Abs(), Items(Abs(), DelayedTasks)) <==> urgent
        invariant DelayedTasks == old(DelayedTasks)
        decreases |Items(Abs(), DelayedTasks)|
      {
        var items := Get(DelayedTasks).items;
        ghost var k := Abs();
        if items == [] || TickCount < tcb[items[0]].wake {
          ScanUrgentStops(k, items);
        }
        if items == [] {
          NextTaskUnblockTime := MAX_DELAY;
          break;
        }
        var t := items[0];
        if TickCount < tcb[t].wake {
          NextTaskUnblockTime := tcb[t].wake;
          break;
        }
        ghost var k1 := ScanNext(k, items);
        ScanUrgentNext(k, items, k1);
        Rouse(t, State);
        if tcb[t].prio > tcb[CurrentTCB].prio {
          switchRequired := true;
        }
      }
    }

    /** `ResumeAll`: drain the pending-ready list, then replay the pended ticks. When it ends the suspension,
        the result says whether a switch has been asked for: before, or by a task woken meanwhile, or by
        one of the ticks. */
    method ResumeAll() returns (switchRequired: bool)
      requires Inv(Abs()) && SchedulerSuspended > 0
      modifies this
      ensures Abs() == KernelApi.ResumeAll(old(Abs())) && Inv(Abs())
      ensures SchedulerSuspended == old(SchedulerSuspended) - 1
      ensures if SchedulerSuspended > 0 then Abs() == old(Abs()).(suspended := SchedulerSuspended)
              else Resumed(old(Abs()), Abs())
      ensures YieldPending <==> old(YieldPending) || (SchedulerSuspended == 0 && ResumeWants(old(Abs()), Abs()))
      ensures switchRequired <==> SchedulerSuspended == 0 && YieldPending
    {
      hide Steady, Resumed, ResumeWants, MovePending, CatchUpPended;
      switchRequired := false;
      ghost var k := Abs();
      ghost var k' := ResumeAllInv(k);
      TasksExist(k);
      ghost var k1 := Resuspended(k, SchedulerSuspended - 1, PendedTicks);
      SchedulerSuspended := SchedulerSuspended - 1;
      if SchedulerSuspended == 0 && CurrentNumberOfTasks > 0 {
        Restart();
        WantsAsBefore(k, k1, Abs());
        switchRequired := YieldPending;
      }
    }

    static lemma WantsAsBefore(k: K, k1: K, k': K)
      requires k1 == k.(suspended := k1.suspended)
      ensures ResumeWants(k1, k') <==> ResumeWants(k, k')
    {
      assert forall t :: Outranks(k1, t) <==> Outranks(k, t);
      assert forall t :: ComesDue(k1, t, k'.clock) <==> ComesDue(k, t, k'.clock);
      assert Items(k1, PendingReady) == Items(k, PendingReady);
    }

    method Restart()
      requires Inv(Abs()) && SchedulerSuspended == 0
      modifies this
      ensures Abs() == CatchUpPended(MovePending(old(Abs())))
      ensures YieldPending <==> old(YieldPending) || ResumeWants(old(Abs()), Abs())
    {
      hide Inv, MovePending, ResumeWants, PendingUrgent, WantsSwitch;
      ghost var k := Abs();
      ghost var k1 := MovePendingInv(k);
      MovePendingReady();
      ReplayTicks();
      MovedReasons(k, k1, Abs());
    }

    static lemma MovedReasons(k: K, k1: K, k': K)
      requires Inv(k) && k1 == MovePending(k)
      ensures k1.pended == k.pended && (ResumeWants(k, k') <==>
              PendingUrgent(k) || (k.pended > 0 && WantsSwitch(k1, k')))
    {
      hide Bitmap, NoneOverdue, Priorities, ResumeWants, PendingUrgent, WantsSwitch;
      var drained := DrainInv(k, Items(k, PendingReady));
      ResumeReasons(k, Items(k, PendingReady), k1, k');
    }

    /** Move the tasks that events have woken meanwhile to their ready lists. */
    method MovePendingReady()
      requires Inv(Abs())
      modifies this`lists, this`tcb, this`TopReadyPriority, this`NextTaskUnblockTime, this`YieldPending
      ensures Abs() == MovePending(old(Abs())) && Inv(Abs())
      ensures YieldPending <==> old(YieldPending) || PendingUrgent(old(Abs()))
    {
      hide PendingUrgent;
      var drained := DrainPendingReady();
      if drained {
        ghost var k3 := ResetInv(Abs());
        ResetNextTaskUnblockTime();
      }
    }

    method DrainPendingReady() returns (drained: bool)
      requires Inv(Abs())
      modifies this`lists, this`tcb, this`TopReadyPriority, this`YieldPending
      ensures Abs() == Drain(old(Abs()), Items(old(Abs()), PendingReady)) && Inv(Abs())
      ensures drained <==> Items(old(Abs()), PendingReady) != []
      ensures YieldPending <==> old(YieldPending) || PendingUrgent(old(Abs()))
    {
      hide Inv, PendingUrgent, Drain;
      drained := false;
      ghost var goal := Drain(Abs(), Items(Abs(), PendingReady));
      ghost var urgent := YieldPending || PendingUrgent(Abs());
      while |Get(PendingReady).items| > 0
        invariant Inv(Abs()) && Drain(Abs(), Items(Abs(), PendingReady)) == goal
        invariant drained || Items(Abs(), PendingReady) == Items(old(Abs()), PendingReady)
        invariant drained ==> Items(old(Abs()), PendingReady) != []
        invariant YieldPending || PendingUrgent(Abs()) <==> urgent
        decreases |Items(Abs(), PendingReady)|
      {
        DrainOne();
        drained := true;
      }
      NobodyPending(Abs());
    }

    method DrainOne()
      requires Inv(Abs()) && Items(Abs(), PendingReady) != []
      modifies this`lists, this`tcb, this`TopReadyPriority, this`YieldPending
      ensures Inv(Abs()) && |Items(Abs(), PendingReady)| < |Items(old(Abs()), PendingReady)|
      ensures Drain(Abs(), Items(Abs(), PendingReady)) == Drain(old(Abs()), Items(old(Abs()), PendingReady))
      ensures YieldPending || PendingUrgent(Abs()) <==> old(YieldPending) || PendingUrgent(old(Abs()))
    {
      hide Inv, PendingUrgent, KernelSteps.Rouse;
      ghost var k := Abs();
      ghost var k1 := DrainStep(k, Items(k, PendingReady));
      Drainable(k, k1);
      var t := Get(PendingReady).items[0];
      Rouse(t, EventItem);
      var outranks := AskIfOutranked(t);
    }

    /** `if (TCB->Priority > CurrentTCB->Priority) YieldPendings[0] = true`. */
    method AskIfOutranked(t: Task) returns (outranks: bool)
      requires t in tcb && CurrentTCB in tcb
      modifies this`YieldPending
      ensures outranks <==> Outranks(Abs(), t)
      ensures YieldPending <==> old(YieldPending) || outranks
      ensures Abs() == old(Abs())
    {
      outranks := tcb[t].prio > tcb[CurrentTCB].prio;
      if outranks {
        YieldPending := true;
      }
    }

    static lemma Drainable(k: K, k1: K)
      requires Inv(k) && Inv(k1) && Items(k, PendingReady) != [] &&
               Items(k1, PendingReady) == Items(k, PendingReady)[1..]
      requires Head(k, PendingReady) in k.tcb && Roused(k, Head(k, PendingReady), k1)
      ensures Links(k) && k1.current in k1.tcb && Head(k, PendingReady) in k1.tcb
      ensures PendingUrgent(k) <==> Outranks(k1, Head(k, PendingReady)) || PendingUrgent(k1)
    {
      DrainUrgentNext(k, k1);
    }

    static lemma NobodyPending(k: K)
      requires Items(k, PendingReady) == []
      ensures !PendingUrgent(k) && Drain(k, Items(k, PendingReady)) == k
    {
    }

    /** Replay the pended ticks, each of which may ask for a switch. */
    method ReplayTicks()
      requires Inv(Abs()) && SchedulerSuspended == 0
      modifies this
      ensures Abs() == TickN(old(Abs()), old(PendedTicks)).(pended := 0)
      ensures YieldPending <==> old(YieldPending) || (old(PendedTicks) > 0 && WantsSwitch(old(Abs()), Abs()))
    {
      hide Inv, Tick, Ticked, WantsSwitch;
      var pendedCounts: nat := PendedTicks;
      ghost var k0, y0, goal := Abs(), YieldPending, TickN(Abs(), PendedTicks);
      NoTicks(k0);
      while pendedCounts > 0
        invariant Inv(Abs()) && SchedulerSuspended == 0 && StillToGo(Abs(), pendedCounts, goal)
        invariant pendedCounts <= k0.pended && TickedBetween(k0, k0.pended - pendedCounts, Abs())
        invariant YieldPending <==> y0 || (pendedCounts < k0.pended && WantsSwitch(k0, Abs()))
      {
        ghost var k := Abs();
        var required := TaskIncrementTick();
        OneTickLess(k, pendedCounts, Abs(), goal);
        ReplayedOne(k0, k0.pended - pendedCounts, k, Abs());
        if required {
          YieldPending := true;
        }
        pendedCounts := pendedCounts - 1;
      }
      PendedTicks := 0;
      PendedIsNoReason(k0, goal, Abs());
    }

    static lemma NoTicks(k: K)
      requires Inv(k)
      ensures TickedBetween(k, 0, k)
    {
      var k' := TickNInv(k, 0);
    }

    static lemma ReplayedOne(k0: K, n: nat, k: K, k1: K)
      requires Inv(k0) && Inv(k) && Inv(k1) && TickedBetween(k0, n, k) && TickedBetween(k, 1, k1)
      ensures TickedBetween(k0, n + 1, k1)
      ensures WantsSwitch(k0, k1) <==> (n > 0 && WantsSwitch(k0, k)) || WantsSwitch(k, k1)
    {
      hide Links, Bitmap, NoneOverdue, Priorities, Ticked, WantsSwitch;
      TickedTrans(k0, k, k1);
      WantsSwitchTrans(k0, k, k1);
      if n == 0 {
        OnlyTheLast(k0, k, k1);
      }
    }

    static lemma OnlyTheLast(k0: K, k: K, k1: K)
      requires TickedBetween(k0, 0, k) && k.clock <= k1.clock && IsDelayList(k0.delayed) && IsDelayList(k0.overflow)
      ensures WantsSwitch(k0, k1) <==> WantsSwitch(k, k1)
    {
      UrgentTrans(k0, k, k1);
      assert !WakesUrgent(k0, k.clock);
    }

    static lemma PendedIsNoReason(k: K, k1: K, k': K)
      requires k' == k1.(pended := k'.pended)
      ensures WantsSwitch(k, k') <==> WantsSwitch(k, k1)
    {
      assert forall id :: Items(k', id) == Items(k1, id);
    }

    static ghost predicate StillToGo(k: K, n: nat, goal: K) {
      TickN(k, n) == goal
    }

    static lemma OneTickLess(k: K, n: nat, k1: K, goal: K)
      requires n > 0 && k1 == Tick(k) && k.suspended == 0 && StillToGo(k, n, goal)
      ensures StillToGo(k1, n - 1, goal)
    {
    }

    // ----- the interface

    static lemma RunningIsKnown(k: K)
      requires Links(k)
      ensures k.current in k.tcb
    {
    }

    static lemma MayBePut(k: K)
      requires Inv(k) && Runs(k)
      ensures Links(k) && k.current in k.tcb && k.tcb[k.current].stateIn.Some? && KindOf(k.delayed).State? &&
              KindOf(k.overflow).State?
    {
    }

    /** The part of `Delay` that runs with the scheduler suspended. */
    method Delay(ticks: nat)
      requires Inv(Abs()) && Runs(Abs()) && 0 < ticks < M
      modifies this`lists, this`tcb, this`TopReadyPriority, this`NextTaskUnblockTime, this`due
      ensures Abs() == DelayCurrent(old(Abs()), ticks, false)
      ensures Inv(Abs()) && ChangedAt(old(Abs()), CurrentTCB, Abs()) && Asleep(old(Abs()), ticks, false, Abs())
    {
      hide Inv, Links, Changed, ChangedAt, Asleep, DelayCurrent;
      ghost var k' := DelayInv(Abs(), ticks, false);
      MayBePut(Abs());
      AddCurrentTaskToDelayedList(ticks, false);
    }

    /** `DelayUntil`, from the snapshot of the tick count on, for a previous wake time in epoch e. The task is
        delayed until its period has passed, unless the period has passed already. */
    method DelayUntil(previous: nat, increment: nat, ghost e: nat) returns (next: nat, shouldDelay: bool)
      requires Inv(Abs()) && Runs(Abs()) && previous < M && increment < M && e * M + previous <= clock
      modifies this`lists, this`tcb, this`TopReadyPriority, this`NextTaskUnblockTime, this`due
      ensures Inv(Abs()) && Abs() == Periods.DelayUntil(old(Abs()), previous, increment)
      ensures next == Wrap(previous + increment)
      ensures !shouldDelay ==> Abs() == old(Abs())
      ensures old(TickCount) < M
      ensures !Periods.ComeRound(e * M + previous, previous, clock, old(TickCount), increment) ==>
                && (shouldDelay <==> clock < e * M + previous + increment)
                && (shouldDelay ==> Blocked(Abs(), CurrentTCB) &&
                                    due == old(due)[CurrentTCB := e * M + previous + increment])
    {
      hide Inv, Changed, DelayCurrent, Runs;
      ghost var k := Abs();
      Periods.ClockDigits(k);
      Periods.DelaysIfDue(e, previous, NOverflows, TickCount, increment);
      next := Wrap(previous + increment);
      shouldDelay := false;
      if TickCount < previous {
        if next < previous && next > TickCount {
          shouldDelay := true;
        }
      } else {
        if next < previous || next > TickCount {
          shouldDelay := true;
        }
      }
      if shouldDelay {
        Periods.SomeTicks(previous, next, TickCount);
        Delay(Minus(next, TickCount));
      }
    }

    /** `SwitchContext`. While the scheduler is suspended the switch is put off. */
    method SwitchContext()
      requires Inv(Abs()) && (SchedulerSuspended == 0 ==> SomeReady(Abs()))
      modifies this`lists, this`CurrentTCB, this`YieldPending
      ensures YieldPending <==> SchedulerSuspended != 0
      ensures Abs() == Switch(old(Abs())) && Inv(Abs())
      ensures SchedulerSuspended == 0 ==> Selected(old(Abs()), CurrentTCB)
    {
      hide Inv, Changed, Selected, SomeReady;
      ghost var k := Abs();
      ghost var k' := SwitchInv(k);
      if SchedulerSuspended == 0 {
        TopIsReady(k);
      }
      if SchedulerSuspended != 0 {
        YieldPending := true;
      } else {
        YieldPending := false;
        assert TopReadyPriority == k.top;
        var top := HighestPriority();
        var r := Rings.Advance(Get(Ready(top)));
        lists := lists[Ready(top) := r];
        CurrentTCB := r.items[r.cursor - 1];
      }
    }

    static lemma TopIsReady(k: K)
      requires Inv(k) && k.suspended == 0 && SomeReady(k)
      ensures exists b :: b in k.top && b < MAX_PRIORITIES
      ensures var id := TopList(k); Items(k, id) != [] && Advance(ListOf(k, id)).cursor > 0
    {
      SomeBit(k);
      TopMembers(k);
      AdvanceRotates(ListOf(k, TopList(k)));
    }

    /** `portGET_HIGHEST_PRIORITY`: scan for the highest set bit. */
    method HighestPriority() returns (p: nat)
      requires exists b :: b in TopReadyPriority && b < MAX_PRIORITIES
      ensures p == HighestBit(TopReadyPriority, MAX_PRIORITIES)
    {
      p := MAX_PRIORITIES - 1;
      while p !in TopReadyPriority
        invariant p < MAX_PRIORITIES && exists b :: b in TopReadyPriority && b <= p
        invariant HighestBit(TopReadyPriority, p + 1) == HighestBit(TopReadyPriority, MAX_PRIORITIES)
        decreases p
      {
        p := p - 1;
      }
    }

    /** A task is created while the scheduler runs: it is ready at the priority asked for, or the highest there
        is, and no other task changes. */
    method TaskCreate(t: Task, priority: nat)
      requires Inv(Abs()) && t !in tcb
      modifies this`lists, this`tcb, this`TopReadyPriority, this`CurrentNumberOfTasks
      ensures Abs() == CreateTask(old(Abs()), t, priority)
      ensures Inv(Abs()) && Created(old(Abs()), t, Abs()) && IsNew(tcb[t], Min(priority, MAX_PRIORITIES - 1))
    {
      hide Inv, Created, IsNew;
      ghost var k' := CreateTaskInv(Abs(), t, priority);
      var p := if priority >= MAX_PRIORITIES then MAX_PRIORITIES - 1 else priority;
      CurrentNumberOfTasks := CurrentNumberOfTasks + 1;
      tcb := tcb[t := Tcb(p, p, 0, None, 0, None, MAX_PRIORITIES - p, false, NotWaiting)];
      AddTaskToReadyList(t);
    }

    /** Both items off their lists, as `TaskDelete` and `TaskSuspend` begin. */
    method Detach(t: Task)
      requires Steady(Abs()) && t in tcb && tcb[t].stateIn.Some? && tcb[t].stateIn != Some(WaitingTermination)
      modifies this`lists, this`tcb, this`TopReadyPriority
      ensures Abs() == Take(Leave(old(Abs()), t), EventItem, t) && Links(Abs()) && t in tcb && tcb[t].stateIn.None?
    {
      ghost var k1 := LeaveOk(Abs(), t);
      TakeLinks(Abs(), State, t);
      var left := RemoveItem(State, t);
      if left == 0 && Get(Ready(tcb[t].prio)).items == [] {
        TopReadyPriority := TopReadyPriority - {tcb[t].prio};
      }
      assert Abs() == k1;
      TakeLinks(k1, EventItem, t);
      left := RemoveItem(EventItem, t);
    }

    method TaskDelete(t: Task)
      requires Inv(Abs()) && t in tcb && tcb[t].stateIn != Some(WaitingTermination)
      modifies this`lists, this`tcb, this`TopReadyPriority, this`NextTaskUnblockTime
      modifies this`CurrentNumberOfTasks, this`DeletedTasksWaitingCleanUp
      ensures Abs() == DeleteTask(old(Abs()), t)
      ensures Inv(Abs()) && Deleted(old(Abs()), t, Abs()) && (t != CurrentTCB ==> CacheExact(Abs()))
    {
      hide Bitmap, NoneOverdue, Links, Epochs, Priorities, Take, Leave, AppendTo, ResetNext, Forget, Deleted;
      ghost var k' := DeleteTaskInv(Abs(), t);
      assert Settled(tcb[t]);
      TasksExist(Abs());
      Detach(t);
      if t == CurrentTCB {
        AppendItem(t, WaitingTermination);
        DeletedTasksWaitingCleanUp := DeletedTasksWaitingCleanUp + 1;
      } else {
        Dispose(t);
      }
    }

    /** A task that is not running is gone at once. */
    method Dispose(t: Task)
      requires Links(Abs()) && CurrentNumberOfTasks > 0
      modifies this`tcb, this`NextTaskUnblockTime, this`CurrentNumberOfTasks
      ensures Abs() == Forget(ResetNext(old(Abs()).(numTasks := Pred(old(Abs()).numTasks))), t)
    {
      ghost var k := Abs();
      CurrentNumberOfTasks := CurrentNumberOfTasks - 1;
      SameTasks(k, Abs());
      ResetNextTaskUnblockTime();
      tcb := tcb - {t};
    }

    method TaskSuspend(t: Task)
      requires Inv(Abs()) && t in tcb && tcb[t].stateIn != Some(WaitingTermination)
      modifies this`lists, this`tcb, this`TopReadyPriority, this`NextTaskUnblockTime
      ensures Abs() == SuspendTask(old(Abs()), t)
      ensures Inv(Abs()) && Changed(old(Abs()), t, SuspendedTcb(old(tcb[t])), Abs()) && CacheExact(Abs())
    {
      hide Bitmap, NoneOverdue, Links, Epochs, Priorities, Changed, Take, Leave, AppendTo, ResetNext;
      assert Settled(tcb[t]);
      ghost var k' := SuspendTaskInv(Abs(), t);
      Detach(t);
      Hold(t);
    }

    /** The rest of `TaskSuspend`, for a task that is on no list. */
    method Hold(t: Task)
      requires Links(Abs()) && t in tcb && tcb[t].stateIn.None?
      modifies this`lists, this`tcb, this`NextTaskUnblockTime
      ensures var k1 := AppendTo(old(Abs()), t, SuspendedTasks);
              Abs() == ResetNext(Relabel(k1, t, if k1.tcb[t].notify.Waiting? then k1.tcb[t].(notify := NotWaiting)
                  else k1.tcb[t]))
    {
      hide Place, Append;
      var r := Get(SuspendedTasks);
      PutLinks(Abs(), t, SuspendedTasks, if r.cursor > 0 then r.cursor - 1 else |r.items|);
      AppendItem(t, SuspendedTasks);
      ghost var k1 := Abs();
      if tcb[t].notify.Waiting? {
        tcb := tcb[t := tcb[t].(notify := NotWaiting)];
      } else {
        assert tcb == tcb[t := tcb[t]];
      }
      LinksFrame(k1, Abs());
      ResetNextTaskUnblockTime();
    }

    /** `StateListItem.remove(); AddTaskToReadyList`. */
    method MakeReady(t: Task)
      requires Links(Abs()) && t in tcb
      modifies this`lists, this`tcb, this`TopReadyPriority
      ensures Abs() == Reready(old(Abs()), t)
    {
      var left := RemoveItem(State, t);
      AddTaskToReadyList(t);
    }

    method TaskResume(t: Task)
      requires Inv(Abs()) && t in tcb
      modifies this`lists, this`tcb, this`TopReadyPriority
      ensures Abs() == ResumeTask(old(Abs()), t) && Inv(Abs())
      ensures var stays := old(tcb[t]).stateIn != Some(SuspendedTasks) || Waits(old(tcb[t])) || t == CurrentTCB;
              Changed(old(Abs()), t, if stays then old(tcb[t]) else ReadiedTcb(old(tcb[t]), false), Abs())
    {
      ghost var k' := ResumeInv(Abs(), t, false);
      if t != CurrentTCB && IsSuspended(tcb[t]) {
        MakeReady(t);
      }
    }

    method TaskResumeFromISR(t: Task) returns (yieldRequired: bool)
      requires Inv(Abs()) && t in tcb
      modifies this`lists, this`tcb, this`TopReadyPriority, this`YieldPending
      ensures yieldRequired <==>
              old(tcb[t]).stateIn == Some(SuspendedTasks) && !Waits(old(tcb[t])) && SchedulerSuspended == 0 &&
              Outranks(old(Abs()), t)
      ensures YieldPending <==> old(YieldPending) || yieldRequired
      ensures Abs() == ResumeFromISR(old(Abs()), t) && Inv(Abs())
      ensures var stays := old(tcb[t]).stateIn != Some(SuspendedTasks) || Waits(old(tcb[t]));
              Changed(old(Abs()), t, if stays then old(tcb[t])
                  else ReadiedTcb(old(tcb[t]), SchedulerSuspended != 0), Abs()) &&
              (!stays && SchedulerSuspended != 0 ==>
                 Items(Abs(), PendingReady) == old(Items(Abs(), PendingReady)) + [t])
    {
      hide Links, Bitmap, NoneOverdue, Epochs, Priorities, Changed, KernelSteps.Rouse, Take, AppendTo, Reready;
      ghost var k' := ResumeInv(Abs(), t, true);
      RunningIsKnown(Abs());
      yieldRequired := false;
      if IsSuspended(tcb[t]) {
        if SchedulerSuspended == 0 {
          yieldRequired := AskIfOutranked(t);
          MakeReady(t);
        } else {
          AppendItem(t, PendingReady);
        }
      }
    }

    method TaskPrioritySet(t: Task, newPriority: nat)
      requires Inv(Abs()) && t in tcb
      modifies this`lists, this`tcb, this`TopReadyPriority
      ensures Abs() == SetPriority(old(Abs()), t, newPriority)
      ensures Inv(Abs()) && Changed(old(Abs()), t, PriorityTcb(old(tcb[t]), newPriority), Abs())
    {
      ghost var k' := SetPriorityInv(Abs(), t, newPriority);
      var p := if newPriority >= MAX_PRIORITIES then MAX_PRIORITIES - 1 else newPriority;
      var block := tcb[t];
      if block.base != p {
        var prio := if block.base == block.prio || p > block.prio then p else block.prio;
        ChangePriority(t, prio, p, EventValueFor(block, p));
      }
    }

    method ChangePriority(t: Task, prio: nat, base: nat, eventValue: nat)
      requires Links(Abs()) && t in tcb
      modifies this`lists, this`tcb, this`TopReadyPriority
      ensures Abs() == Reprioritise(old(Abs()), t, prio, base, eventValue)
    {
      if tcb[t].stateIn == Some(Ready(tcb[t].prio)) {
        Unready(t);
        tcb := tcb[t := tcb[t].(prio := prio, base := base, eventValue := eventValue)];
        AddTaskToReadyList(t);
      } else {
        tcb := tcb[t := tcb[t].(prio := prio, base := base, eventValue := eventValue)];
      }
    }

    // ----- priority inheritance

    /** `PriorityInherit`, for a mutex that is held. The holder ranks at least as high as the running task
        now; the result says whether it owes that to an inheritance. */
    method PriorityInherit(h: Task) returns (inherited: bool)
      requires Inv(Abs()) && h in tcb
      modifies this`lists, this`tcb, this`TopReadyPriority
      ensures PriorityOk(old(tcb[CurrentTCB]))
      ensures Abs() == Inherit(old(Abs()), h) && inherited == DidInherit(old(Abs()), h)
      ensures Inv(Abs()) && ChangedAt(old(Abs()), h, Abs()) && tcb[h].base == old(tcb[h].base)
      ensures tcb[h].prio == if old(tcb[h].prio) < old(tcb[CurrentTCB].prio) then old(tcb[CurrentTCB].prio)
              else old(tcb[h].prio)
    {
      assert PriorityOk(tcb[CurrentTCB]);
      ghost var k' := LendInv(Abs(), h);
      var p := tcb[CurrentTCB].prio;
      if tcb[h].prio >= p {
        return tcb[h].base < p;
      }
      ChangePriority(h, p, tcb[h].base, EventValueFor(tcb[h], p));
      inherited := true;
    }

    static lemma LendInv(k: K, h: Task) returns (k': K)
      requires Inv(k) && h in k.tcb
      ensures k.tcb[k.current].prio <= MAX_PRIORITIES && k' == Inherit(k, h) && Inv(k') && ChangedAt(k, h, k')
      ensures k'.tcb[h].base == k.tcb[h].base
      ensures k'.tcb[h].prio == if k.tcb[h].prio < k.tcb[k.current].prio then k.tcb[k.current].prio else k.tcb[h].prio
    {
      assert PriorityOk(k.tcb[k.current]) && PriorityOk(k.tcb[h]) && Settled(k.tcb[h]);
      if k.tcb[h].prio >= k.tcb[k.current].prio {
        k' := k;
        assert k.tcb == k.tcb[h := k.tcb[h]];
      } else {
        var p := k.tcb[k.current].prio;
        k' := ReprioritiseOk(k, h, p, k.tcb[h].base, EventValueFor(k.tcb[h], p));
        ChangedInv(k, h, k'.tcb[h], k');
      }
    }

    /** `TCB_t::PriorityDisinherit`, whoever calls it. A holder that gives up its only mutex has its base
        priority back, and no other task changes. The invariant holds unless a holder that is not ready is
        taken off a list it had to itself while others of its old priority are ready, or one that awaits
        its own deletion is made ready. */
    method PriorityDisinherit(h: Task) returns (ret: bool)
      requires Inv(Abs()) && h in tcb && tcb[h].mutexesHeld > 0
      modifies this`lists, this`tcb, this`TopReadyPriority
      ensures PriorityOk(old(tcb[h])) && old(tcb[h].stateIn.Some?) && Abs() == Disinherit(old(Abs()), h)
      ensures ret <==> old(tcb[h].prio != tcb[h].base && tcb[h].mutexesHeld == 1)
      ensures tcb == old(tcb)[h := DisinheritedTcb(old(tcb)[h])] && (ret ==> tcb[h].prio == old(tcb[h]).base)
      ensures Bitmap(Abs()) <==> !(ret && LeavesStaleBit(old(Abs()), h))
      ensures Inv(Abs()) <==> !(ret && (LeavesStaleBit(old(Abs()), h) ||
                              old(tcb[h]).stateIn == Some(WaitingTermination)))
      ensures Inv(Abs()) ==> Changed(old(Abs()), h, DisinheritedTcb(old(tcb)[h]), Abs())
    {
      hide Links, Bitmap, NoneOverdue, Epochs, Changed, LeavesStaleBit, BaseAgain;
      assert PriorityOk(tcb[h]);
      ghost var k := Abs();
      ghost var k' := DisinheritInv(k, h);
      RunningIsKnown(k);
      tcb := tcb[h := tcb[h].(mutexesHeld := tcb[h].mutexesHeld - 1)];
      LinksFrame(k, Abs());
      ret := false;
      if tcb[h].prio != tcb[h].base && tcb[h].mutexesHeld == 0 {
        BackToBase(h);
        ret := true;
      }
    }

    method BackToBase(h: Task)
      requires Links(Abs()) && h in tcb && tcb[h].stateIn.Some? && tcb[h].base <= MAX_PRIORITIES
      modifies this`lists, this`tcb, this`TopReadyPriority
      ensures Abs() == BaseAgain(old(Abs()), h)
    {
      hide Links, KernelModel.Unready;
      Unready(h);
      tcb := tcb[h := tcb[h].(prio := tcb[h].base, eventValue := MAX_PRIORITIES - tcb[h].base)];
      AddTaskToReadyList(h);
    }

    /** `PriorityDisinheritAfterTimeout`, with the reset of the bit as the source has it. A holder of this
        mutex alone gets the priority it is still owed, and no other task changes; the invariant holds unless
        that takes the holder off a ready list it has to itself. */
    method PriorityDisinheritAfterTimeout(h: Task, highestWaiter: nat)
      requires Inv(Abs()) && h in tcb && highestWaiter < MAX_PRIORITIES
      modifies this`lists, this`tcb, this`TopReadyPriority
      ensures PriorityOk(old(tcb[h])) && Abs() == DisinheritAfterTimeout(old(Abs()), h, highestWaiter)
      ensures tcb == old(tcb)[h := TimeoutTcb(old(tcb)[h], highestWaiter)]
      ensures old(tcb[h]).mutexesHeld == 1 ==> tcb[h].prio == PriorityToUse(old(tcb[h]), highestWaiter)
      ensures var stale := Lowers(old(tcb[h]), highestWaiter) && Alone(old(Abs()), h);
              (Bitmap(Abs()) <==> !stale) && (Inv(Abs()) <==> !stale)
      ensures Inv(Abs()) ==> Changed(old(Abs()), h, TimeoutTcb(old(tcb)[h], highestWaiter), Abs())
    {
      hide Links, Bitmap, NoneOverdue, Epochs, Changed, Alone, Lowered;
      assert PriorityOk(tcb[h]);
      ghost var k' := TimeoutInv(Abs(), h, highestWaiter);
      var priorityToUse := if tcb[h].base < highestWaiter then highestWaiter else tcb[h].base;
      if tcb[h].prio != priorityToUse && tcb[h].mutexesHeld == 1 {
        LowerHolder(h, priorityToUse);
      }
    }

    method LowerHolder(h: Task, priorityToUse: nat)
      requires Links(Abs()) && h in tcb && priorityToUse < MAX_PRIORITIES
      modifies this`lists, this`tcb, this`TopReadyPriority
      ensures Abs() == Lowered(old(Abs()), h, priorityToUse)
    {
      ghost var k1 := Take(Abs(), State, h);
      var entry := tcb[h].prio;
      if tcb[h].stateIn == Some(Ready(entry)) {
        var left := RemoveItem(State, h);
        if left == 0 {
          TopReadyPriority := TopReadyPriority - {priorityToUse};
        }
        tcb := tcb[h := tcb[h].(prio := priorityToUse, eventValue := EventValueFor(tcb[h], priorityToUse))];
        AddTaskToReadyList(h);
      } else {
        tcb := tcb[h := tcb[h].(prio := priorityToUse, eventValue := EventValueFor(tcb[h], priorityToUse))];
      }
    }

    // ----- waiting

    /** The body of `AbortDelay`, run with the scheduler suspended. */
    method AbortTaskDelay(t: Task) returns (aborted: bool)
      requires Inv(Abs()) && t in tcb
      modifies this`lists, this`tcb, this`TopReadyPriority, this`YieldPending
      ensures YieldPending <==> old(YieldPending) || (aborted && Outranks(old(Abs()), t))
      ensures Abs() == AbortDelay(old(Abs()), t) && (aborted <==> IsAsleep(old(Abs()), t))
      ensures Inv(Abs()) && Changed(old(Abs()), t, if aborted then AbortedTcb(old(tcb[t])) else old(tcb[t]), Abs())
    {
      hide Links, Bitmap, NoneOverdue, Epochs, Priorities, Changed, KernelSteps.Rouse, IsAsleep;
      RunningIsKnown(Abs());
      ghost var k' := AbortDelayInv(Abs(), t);
      SameRanks(Abs(), t, if IsAsleep(Abs(), t) then AbortedTcb(tcb[t]) else tcb[t], k');
      aborted := TaskGetStateIsBlocked(t);
      if aborted {
        EndDelay(t);
        assert Abs() == k';
        var outranks := AskIfOutranked(t);
      }
    }

    method EndDelay(t: Task)
      requires Links(Abs()) && t in tcb
      modifies this`lists, this`tcb, this`TopReadyPriority
      ensures var tcb := old(tcb)[t];
              Abs() == KernelSteps.Rouse(Relabel(old(Abs()), t,
                  tcb.(delayAborted := tcb.delayAborted || tcb.eventIn.Some?)), t, State)
    {
      hide KernelSteps.Rouse;
      ghost var k := Abs();
      RunningIsKnown(k);
      tcb := tcb[t := tcb[t].(delayAborted := tcb[t].delayAborted || tcb[t].eventIn.Some?)];
      LinksFrame(k, Abs());
      Rouse(t, State);
    }

    static lemma SameRanks(k: K, t: Task, tcb: Tcb, k': K)
      requires t in k.tcb && k.current in k.tcb && tcb.prio == k.tcb[t].prio && Changed(k, t, tcb, k')
      ensures t in k'.tcb && k'.current in k'.tcb && (Outranks(k', t) <==> Outranks(k, t))
    {
    }

    static lemma AsleepIfKept(k: K, t: Task)
      requires t in k.tcb
      ensures Inv(k) ==> (IsBlocked(k, t) <==> IsAsleep(k, t))
    {
      if Inv(k) {
        BlockedIff(k, t);
      }
    }

    /** `TaskGetState(t) == eBlocked`: the task is asleep. */
    method TaskGetStateIsBlocked(t: Task) returns (blocked: bool)
      requires t in tcb
      ensures blocked == IsBlocked(Abs(), t) && (Inv(Abs()) ==> (blocked <==> IsAsleep(Abs(), t)))
    {
      var block := tcb[t];
      blocked := false;
      if t != CurrentTCB {
        if block.eventIn == Some(PendingReady) {
        } else if block.stateIn == Some(DelayedTasks) || block.stateIn == Some(OverflowDelayed) {
          blocked := true;
        } else if block.stateIn == Some(SuspendedTasks) {
          blocked := if block.eventIn.None? then block.notify.Waiting? else true;
        }
      }
      AsleepIfKept(Abs(), t);
    }

    method PlaceOnEventList(q: nat, ticks: nat)
      requires Inv(Abs()) && Runs(Abs()) && 0 < ticks < M && tcb[CurrentTCB].eventIn.None? &&
               !tcb[CurrentTCB].notify.Waiting?
      modifies this`lists, this`tcb, this`TopReadyPriority, this`NextTaskUnblockTime, this`due
      ensures Abs() == BlockOn(old(Abs()), q, ticks)
      ensures Inv(Abs()) && ChangedAt(old(Abs()), CurrentTCB, Abs()) && Asleep(old(Abs()), ticks, true, Abs())
      ensures tcb[CurrentTCB].eventIn == Some(Event(q))
    {
      hide Inv, Links, Changed, ChangedAt, Asleep, DelayCurrent, InsertInto;
      ghost var k' := BlockOnInv(Abs(), q, ticks);
      MayBePut(Abs());
      ghost var k1 := JoinEventOk(Abs(), q);
      InsertItem(CurrentTCB, Event(q));
      MayBePut(Abs());
      AddCurrentTaskToDelayedList(ticks, true);
    }

    /** `RemoveFromEventList`. The result says whether the woken task outranks the running one. */
    method RemoveFromEventList(q: nat) returns (outranks: bool)
      requires Inv(Abs()) && Items(Abs(), Event(q)) != []
      modifies this`lists, this`tcb, this`TopReadyPriority, this`YieldPending
      ensures YieldPending <==> old(YieldPending) || outranks
      ensures Abs() == WakeFrom(old(Abs()), q) && Inv(Abs())
      ensures var t := Head(old(Abs()), Event(q));
              && t in old(tcb) && CurrentTCB in old(tcb) && (outranks <==> old(tcb)[t].prio > old(tcb)[CurrentTCB].prio)
              && Changed(old(Abs()), t, WokenByEventTcb(old(tcb)[t], SchedulerSuspended != 0), Abs())
              && (SchedulerSuspended != 0 ==> Items(Abs(), PendingReady) == old(Items(Abs(), PendingReady)) + [t])
    {
      hide Links, Bitmap, NoneOverdue, Epochs, Priorities, Changed, KernelSteps.Rouse, AppendTo, Reready;
      ghost var k' := WakeFromInv(Abs(), q);
      RunningIsKnown(Abs());
      HeadLinked(Abs(), Event(q));
      var t := Get(Event(q)).items[0];
      SameRanks(Abs(), t, WokenByEventTcb(tcb[t], SchedulerSuspended != 0), k');
      if SchedulerSuspended == 0 {
        Rouse(t, EventItem);
      } else {
        var left := RemoveItem(EventItem, t);
        AppendItem(t, PendingReady);
      }
      outranks := AskIfOutranked(t);
    }

    /** `GenericNotify` and `GenericNotifyFromISR`, but for the notification value. The result says whether the
        task has been woken and outranks the running one; an interrupt leaves the switch for later. */
    method GenericNotify(t: Task, isr: bool) returns (outranks: bool)
      requires Inv(Abs()) && t in tcb && tcb[t].stateIn != Some(WaitingTermination)
      modifies this`lists, this`tcb, this`TopReadyPriority, this`YieldPending
      ensures outranks <==> old(tcb[t]).notify.Waiting? && Outranks(old(Abs()), t)
      ensures YieldPending <==> old(YieldPending) || (isr && outranks)
      ensures Abs() == if isr then NotifyFromISR(old(Abs()), t) else NotifyTask(old(Abs()), t)
      ensures Inv(Abs()) && Changed(old(Abs()), t, NotifiedTcb(old(tcb[t]), isr && SchedulerSuspended != 0), Abs())
      ensures old(tcb[t]).notify.Waiting? && isr && SchedulerSuspended != 0 ==>
                Items(Abs(), PendingReady) == old(Items(Abs(), PendingReady)) + [t]
    {
      hide Links, Bitmap, NoneOverdue, Epochs, Priorities, Changed, NotifyTask, NotifyFromISR, NotifiedTcb;
      ghost var k := Abs();
      ghost var k' := NotifyInv(k, t, isr);
      RunningIsKnown(k);
      NotifiedRank(k, t, isr && SchedulerSuspended != 0, k');
      var woken := Notify(t, isr);
      outranks := false;
      if woken {
        if isr {
          outranks := AskIfOutranked(t);
        } else {
          outranks := tcb[t].prio > tcb[CurrentTCB].prio;
        }
      }
    }

    static lemma NotifiedRank(k: K, t: Task, later: bool, k': K)
      requires t in k.tcb && k.current in k.tcb && Changed(k, t, NotifiedTcb(k.tcb[t], later), k')
      ensures t in k'.tcb && k'.current in k'.tcb && (Outranks(k', t) <==> Outranks(k, t))
    {
      SameRanks(k, t, NotifiedTcb(k.tcb[t], later), k');
    }

    /** The state of the notification, and the task's wake-up if it waits for it. */
    method Notify(t: Task, isr: bool) returns (woken: bool)
      requires Links(Abs()) && t in tcb
      modifies this`lists, this`tcb, this`TopReadyPriority
      ensures Abs() == if isr then NotifyFromISR(old(Abs()), t) else NotifyTask(old(Abs()), t)
      ensures woken <==> old(tcb)[t].notify.Waiting?
    {
      hide Links, Reready, AppendTo;
      ghost var k := Abs();
      RunningIsKnown(k);
      woken := tcb[t].notify.Waiting?;
      tcb := tcb[t := tcb[t].(notify := Received)];
      LinksFrame(k, Abs());
      if woken {
        Awaken(t, isr && SchedulerSuspended != 0);
      }
    }

    /** The notified task is ready, or pending. */
    method Awaken(t: Task, later: bool)
      requires Links(Abs()) && t in tcb && CurrentTCB in tcb
      modifies this`lists, this`tcb, this`TopReadyPriority
      ensures Abs() == if later then AppendTo(old(Abs()), t, PendingReady) else Reready(old(Abs()), t)
      ensures t in tcb && CurrentTCB in tcb && tcb[t].prio == old(tcb)[t].prio &&
              tcb[CurrentTCB].prio == old(tcb)[CurrentTCB].prio
    {
      hide Links;
      if later {
        AppendItem(t, PendingReady);
      } else {
        MakeReady(t);
      }
    }

    /** The loop of `CheckTasksWaitingTermination`, run by the idle task. */
    method CheckTasksWaitingTermination()
      requires Inv(Abs()) && Runs(Abs())
      modifies this`lists, this`tcb, this`CurrentNumberOfTasks, this`DeletedTasksWaitingCleanUp
      ensures Inv(Abs()) && DeletedTasksWaitingCleanUp == 0 && Items(Abs(), WaitingTermination) == []
      ensures CurrentNumberOfTasks == old(CurrentNumberOfTasks) - old(DeletedTasksWaitingCleanUp)
      ensures OthersStay(old(Abs()), Abs())
    {
      hide Inv, Runs, Links;
      WaitersListed(Abs());
      while DeletedTasksWaitingCleanUp > 0
        invariant Inv(Abs()) && Runs(Abs()) && OthersStay(old(Abs()), Abs())
        invariant CurrentNumberOfTasks - DeletedTasksWaitingCleanUp ==
                  old(CurrentNumberOfTasks) - old(DeletedTasksWaitingCleanUp)
      {
        ghost var k := Abs();
        TasksExist(k);
        WaitersListed(k);
        CleanUpOne();
        CleanUpKeeps(old(Abs()), k, Abs());
      }
      WaitersListed(Abs());
    }

    /** Only tasks that await their clean-up have gone. */
    static ghost predicate OthersStay(k: K, k': K) {
      && (forall t :: t in k.tcb && k.tcb[t].stateIn != Some(WaitingTermination) ==> t in k'.tcb)
      && (forall t :: t in k'.tcb ==> t in k.tcb && k'.tcb[t] == k.tcb[t])
    }

    static lemma WaitersListed(k: K)
      requires Inv(k)
      ensures Links(k) && k.deletedWaiting == |Items(k, WaitingTermination)| && OthersStay(k, k)
    {
    }

    static lemma CleanUpKeeps(k0: K, k: K, k': K)
      requires Inv(k) && Runs(k) && k.deletedWaiting > 0 && k' == CleanUp(k) && OthersStay(k0, k)
      ensures Inv(k') && Runs(k') && k'.numTasks == k.numTasks - 1 && k'.deletedWaiting == k.deletedWaiting - 1
      ensures OthersStay(k0, k')
    {
      var cleaned := CleanUpInv(k);
      HeadLinked(k, WaitingTermination);
    }

    method CleanUpOne()
      requires Links(Abs()) && CurrentNumberOfTasks > 0 &&
               DeletedTasksWaitingCleanUp == |Items(Abs(), WaitingTermination)| > 0
      modifies this`lists, this`tcb, this`CurrentNumberOfTasks, this`DeletedTasksWaitingCleanUp
      ensures Abs() == CleanUp(old(Abs()))
    {
      var t := Get(WaitingTermination).items[0];
      HeadLinked(Abs(), WaitingTermination);
      var left := RemoveItem(State, t);
      CurrentNumberOfTasks := CurrentNumberOfTasks - 1;
      DeletedTasksWaitingCleanUp := DeletedTasksWaitingCleanUp - 1;
      tcb := tcb - {t};
    }
  }
}

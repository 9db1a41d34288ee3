/** Every operation keeps the kernel invariant. */
module KernelInvariant {
  import opened Basics
  import opened Rings
  import opened KernelModel
  import opened KernelSteps
  import opened KernelApi

  /** What holds between any two list operations of a running kernel. */
  ghost predicate Steady(k: K) {
    Core(k) && Bitmap(k) && NoneOverdue(k)
  }

  /** A task is on some state list, and nothing but the idle task's clean-up can move it once it
      awaits termination. */
  predicate Settled(tcb: Tcb) {
    tcb.stateIn.Some? && (tcb.stateIn.value.WaitingTermination? ==> tcb.eventIn.None?)
  }

  /** The invariant: every task's state item is on exactly one list (`Links` and `Settled`), ready
      lists hold only their priority, the bitmap is exact, the delay lists agree with the clock, and
      the task counts include the tasks that await clean-up. */
  ghost predicate Inv(k: K) {
    && Steady(k)
    && (forall t :: t in k.tcb ==> Settled(k.tcb[t]))
    && k.numTasks == |k.tcb| && k.deletedWaiting == |Items(k, WaitingTermination)|
  }

  /** An operation on task `t` alone: it now reads `tcb`, and the clock, the counts and the tasks
      that await termination are as they were. */
  ghost predicate Changed(k: K, t: Task, tcb: Tcb, k': K) {
    && k' == k.(lists := k'.lists, tcb := k.tcb[t := tcb], top := k'.top, nextUnblock := k'.nextUnblock, due := k'.due)
    && (forall u :: u != t && u in k.due ==> u in k'.due && k'.due[u] == k.due[u])
    && ListOf(k', WaitingTermination) == ListOf(k, WaitingTermination)
  }

  ghost predicate ChangedAt(k: K, t: Task, k': K) {
    t in k'.tcb && Changed(k, t, k'.tcb[t], k')
  }

  lemma ChangedTrans(k: K, t: Task, tcb1: Tcb, k1: K, tcb2: Tcb, k2: K)
    requires Changed(k, t, tcb1, k1) && Changed(k1, t, tcb2, k2)
    ensures Changed(k, t, tcb2, k2)
  {
    assert k2.tcb == k.tcb[t := tcb2];
  }

  lemma ChangedInv(k: K, t: Task, tcb: Tcb, k': K)
    requires Inv(k) && t in k.tcb && Changed(k, t, tcb, k') && Steady(k') && Settled(tcb)
    ensures Inv(k')
  {
    assert k'.tcb.Keys == k.tcb.Keys;
    assert |k'.tcb| == |k'.tcb.Keys| == |k.tcb.Keys| == |k.tcb|;
  }

  // ----- list surgery on one task

  /** The cached time is that of the first delayed task of this epoch. */
  predicate CacheExact(k: K) {
    var ts := Items(k, k.delayed);
    if ts == [] then k.nextUnblock == MAX_DELAY else ts[0] in k.tcb && k.nextUnblock == k.tcb[ts[0]].wake
  }

  lemma ResetOk(k: K, t: Task) returns (k': K)
    requires Core(k) && t in k.tcb
    ensures k' == ResetNext(k) && CacheExact(k')
    ensures Core(k') && (Bitmap(k) ==> Bitmap(k')) && (NoneOverdue(k) ==> NoneOverdue(k'))
    ensures Changed(k, t, k.tcb[t], k')
  {
    k' := ResetNext(k);
    assert k.tcb == k.tcb[t := k.tcb[t]];
    var ts := Items(k, k.delayed);
    if ts != [] {
      assert ts[0] in ts && WakeOk(k, ts[0]);
      assert Keys(k, k.delayed)[0] == k.tcb[ts[0]].wake;
    }
    forall t | t in k.tcb && k.tcb[t].stateIn == Some(k.delayed) ensures k'.nextUnblock <= k.tcb[t].wake {
      DelayedMembers(k, t);
      var i := IndexOf(ts, t);
      assert Keys(k, k.delayed)[0] <= Keys(k, k.delayed)[i];
      assert Keys(k, k.delayed)[i] == k.tcb[t].wake;
    }
    NextSet(k, k');
  }

  lemma LeaveOk(k: K, t: Task) returns (k': K)
    requires Steady(k) && t in k.tcb && k.tcb[t].stateIn != Some(WaitingTermination)
    ensures k' == Leave(k, t)
    ensures Steady(k') && Changed(k, t, k.tcb[t].(stateIn := None), k')
  {
    var k1 := TakeCore(k, State, t);
    TakenBitmap(k, State, t, k1);
    k' := Leave(k, t);
    Retopped(k1, k');
    assert PriorityOk(k.tcb[t]);
    assert forall id :: Items(k', id) == Items(k1, id);
  }

  lemma TakeEventOk(k: K, t: Task) returns (k': K)
    requires Steady(k) && t in k.tcb
    ensures k' == Take(k, EventItem, t)
    ensures Steady(k') && Changed(k, t, k.tcb[t].(eventIn := None), k')
  {
    k' := TakeCore(k, EventItem, t);
    TakenBitmap(k, EventItem, t, k');
  }

  /** Off both lists: what `TaskDelete` and `TaskSuspend` begin with. */
  lemma DetachOk(k: K, t: Task) returns (k': K)
    requires Steady(k) && t in k.tcb && k.tcb[t].stateIn != Some(WaitingTermination)
    ensures k' == Take(Leave(k, t), EventItem, t)
    ensures Steady(k') && Changed(k, t, k.tcb[t].(stateIn := None, eventIn := None), k')
  {
    var k1 := LeaveOk(k, t);
    k' := TakeEventOk(k1, t);
    ChangedTrans(k, t, k1.tcb[t], k1, k'.tcb[t], k');
  }

  lemma AppendOk(k: K, t: Task, id: ListId) returns (k': K)
    requires Steady(k) && t in k.tcb && k.tcb[t].Container(KindOf(id)).None?
    requires !IsDelayList(id) && !id.Ready?
    requires KindOf(id).EventItem? ==> !k.tcb[t].notify.Waiting?
    ensures k' == AppendTo(k, t, id)
    ensures Steady(k') && Joined(k, t, id, k') && Items(k', id) == Items(k, id) + [t]
    ensures !id.WaitingTermination? ==> Changed(k, t, k.tcb[t].SetContainer(KindOf(id), Some(id)), k')
  {
    k' := AppendCore(k, t, id);
    AppendedLast(k, t, id, k');
    hide Links, Epochs, NoneOverdue, AppendTo;
    assert forall p :: ListOf(k', Ready(p)) == ListOf(k, Ready(p));
  }

  lemma AppendedLast(k: K, t: Task, id: ListId, k': K)
    requires Unturned(k) && !id.Ready? && ListOf(k', id) == Append(ListOf(k, id), t)
    ensures Items(k', id) == Items(k, id) + [t]
  {
  }

  lemma RelabelOk(k: K, t: Task, tcb: Tcb) returns (k': K)
    requires Steady(k) && t in k.tcb && PriorityOk(tcb)
    requires tcb.stateIn == k.tcb[t].stateIn && tcb.eventIn == k.tcb[t].eventIn && tcb.wake == k.tcb[t].wake
    ensures k' == Relabel(k, t, tcb)
    ensures Steady(k') && Changed(k, t, tcb, k')
  {
    k' := Relabelled(k, t, tcb);
  }

  lemma RereadyOk(k: K, t: Task) returns (k': K)
    requires Steady(k) && t in k.tcb && k.tcb[t].stateIn != Some(WaitingTermination)
    ensures k' == Reready(k, t)
    ensures Steady(k') && Changed(k, t, k.tcb[t].(stateIn := Some(Ready(k.tcb[t].prio))), k')
  {
    var k1 := TakeCore(k, State, t);
    TakenBitmap(k, State, t, k1);
    k' := AddReadyOk(k1, t);
    RereadyBy(k, t, k1, k');
  }

  lemma RereadyBy(k: K, t: Task, k1: K, k': K)
    requires t in k.tcb && Taken(k, State, t, k1) && Readied(k1, t, k') && k.tcb[t].stateIn != Some(WaitingTermination)
    ensures Changed(k, t, k.tcb[t].(stateIn := Some(Ready(k.tcb[t].prio))), k')
  {
    assert k'.tcb == k.tcb[t := k.tcb[t].(stateIn := Some(Ready(k.tcb[t].prio)))];
  }

  lemma RousedChanged(k: K, t: Task, k': K)
    requires t in k.tcb && Roused(k, t, k') && k.tcb[t].stateIn != Some(WaitingTermination) &&
             k.tcb[t].eventIn != Some(WaitingTermination)
    ensures Changed(k, t, WokenTcb(k.tcb[t]), k')
  {
  }

  lemma RouseSteady(k: K, t: Task, first: Kind) returns (k': K)
    requires Steady(k) && t in k.tcb && k.tcb[t].stateIn != Some(WaitingTermination)
    ensures k' == Rouse(k, t, first)
    ensures Steady(k') && Changed(k, t, WokenTcb(k.tcb[t]), k')
  {
    k' := RouseOk(k, t, first);
    assert Linked(k, t, k.tcb[t].Container(EventItem), EventItem);
    RousedChanged(k, t, k');
  }

  /** A change of priority moves a ready task between ready lists and keeps the bitmap exact. */
  lemma ReprioritiseOk(k: K, t: Task, prio: nat, base: nat, eventValue: nat) returns (k': K)
    requires Steady(k) && t in k.tcb && prio < MAX_PRIORITIES && base < MAX_PRIORITIES
    ensures k' == Reprioritise(k, t, prio, base, eventValue)
    ensures Steady(k') && Changed(k, t, ReprioTcb(k.tcb[t], prio, base, eventValue), k')
    ensures forall id: ListId :: !id.Ready? ==> ListOf(k', id) == ListOf(k, id)
  {
    assert PriorityOk(k.tcb[t]);
    if k.tcb[t].stateIn == Some(Ready(k.tcb[t].prio)) {
      var k1 := UnreadyOk(k, t);
      var k2 := Relabelled(k1, t, k1.tcb[t].(prio := prio, base := base, eventValue := eventValue));
      k' := AddReadyOk(k2, t);
      ReprioritisedBy(k, t, prio, base, eventValue, k1, k2, k');
    } else {
      k' := RelabelOk(k, t, k.tcb[t].(prio := prio, base := base, eventValue := eventValue));
    }
  }

  function ReprioTcb(tcb: Tcb, prio: nat, base: nat, eventValue: nat): Tcb {
    tcb.(prio := prio, base := base, eventValue := eventValue,
         stateIn := if tcb.stateIn == Some(Ready(tcb.prio)) then Some(Ready(prio)) else tcb.stateIn)
  }

  lemma ReprioritisedBy(k: K, t: Task, prio: nat, base: nat, eventValue: nat, k1: K, k2: K, k': K)
    requires t in k.tcb && k.tcb[t].stateIn == Some(Ready(k.tcb[t].prio))
    requires k1 == k.(lists := k1.lists, top := k1.top, tcb := k.tcb[t := k.tcb[t].(stateIn := None)])
    requires forall id :: id != Ready(k.tcb[t].prio) ==> ListOf(k1, id) == ListOf(k, id)
    requires k2 == k1.(tcb := k1.tcb[t := k1.tcb[t].(prio := prio, base := base, eventValue := eventValue)])
    requires Readied(k2, t, k')
    ensures Changed(k, t, ReprioTcb(k.tcb[t], prio, base, eventValue), k')
    ensures forall id: ListId :: !id.Ready? ==> ListOf(k', id) == ListOf(k, id)
  {
    assert k'.tcb == k.tcb[t := ReprioTcb(k.tcb[t], prio, base, eventValue)];
  }

  // ----- the operations, one by one

  /** What each operation makes of its task; `later` says that the scheduler is suspended and the task has
      to wait on the pending-ready list. Together with `Changed` and the invariant this fixes the lists. */
  function PriorityTcb(tcb: Tcb, newPriority: nat): Tcb {
    var p := if newPriority >= MAX_PRIORITIES then MAX_PRIORITIES - 1 else newPriority;
    if tcb.base == p then tcb
    else ReprioTcb(tcb, if tcb.base == tcb.prio || p > tcb.prio then p else tcb.prio, p, EventValueFor(tcb, p))
  }

  function SuspendedTcb(tcb: Tcb): Tcb {
    tcb.(stateIn := Some(SuspendedTasks), eventIn := None, notify := if tcb.notify.Waiting? then NotWaiting
        else tcb.notify)
  }

  function ReadiedTcb(tcb: Tcb, later: bool): Tcb {
    if later then tcb.(eventIn := Some(PendingReady)) else tcb.(stateIn := Some(Ready(tcb.prio)))
  }

  function AbortedTcb(tcb: Tcb): Tcb {
    WokenTcb(tcb.(delayAborted := tcb.delayAborted || tcb.eventIn.Some?))
  }

  function WokenByEventTcb(tcb: Tcb, later: bool): Tcb {
    if later then tcb.(eventIn := Some(PendingReady)) else WokenTcb(tcb)
  }

  function NotifiedTcb(tcb: Tcb, later: bool): Tcb {
    var tcb' := tcb.(notify := Received);
    if tcb.notify.Waiting? then ReadiedTcb(tcb', later) else tcb'
  }

  function WaitingTcb(tcb: Tcb, begin: bool): Tcb {
    tcb.(notify := if !begin then NotWaiting else if tcb.notify.Received? then Received else Waiting)
  }

  lemma SetPriorityInv(k: K, t: Task, newPriority: nat) returns (k': K)
    requires Inv(k) && t in k.tcb
    ensures k' == SetPriority(k, t, newPriority) && Inv(k') && Changed(k, t, PriorityTcb(k.tcb[t], newPriority), k')
    ensures Blocked(k, t) ==> k'.tcb[t].stateIn == k.tcb[t].stateIn
    ensures k.tcb[t].eventValue >= VALUE_IN_USE ==> k'.tcb[t].eventValue == k.tcb[t].eventValue
    ensures k.tcb[t].eventValue < VALUE_IN_USE && k'.tcb[t].base != k.tcb[t].base ==>
              k'.tcb[t].eventValue + k'.tcb[t].base == MAX_PRIORITIES
  {
    var p := if newPriority >= MAX_PRIORITIES then MAX_PRIORITIES - 1 else newPriority;
    var tcb := k.tcb[t];
    assert PriorityOk(tcb) && Settled(tcb);
    hide Links, Bitmap, NoneOverdue, Epochs, Reprioritise;
    if tcb.base == p {
      k' := k;
      assert k.tcb == k.tcb[t := tcb];
    } else {
      k' := ReprioritiseOk(k, t, if tcb.base == tcb.prio || p > tcb.prio then p
          else tcb.prio, p, EventValueFor(tcb, p));
      ChangedInv(k, t, k'.tcb[t], k');
    }
  }

  lemma SuspendTaskInv(k: K, t: Task) returns (k': K)
    requires Inv(k) && t in k.tcb && k.tcb[t].stateIn != Some(WaitingTermination)
    ensures k' == SuspendTask(k, t) && Inv(k') && Changed(k, t, SuspendedTcb(k.tcb[t]), k') && CacheExact(k')
  {
    assert PriorityOk(k.tcb[t]);
    var k1 := DetachOk(k, t);
    var k2 := AppendOk(k1, t, SuspendedTasks);
    var k3 := RelabelOk(k2, t, if k2.tcb[t].notify.Waiting? then k2.tcb[t].(notify := NotWaiting) else k2.tcb[t]);
    k' := ResetOk(k3, t);
    ChangedTrans(k, t, k1.tcb[t], k1, k2.tcb[t], k2);
    ChangedTrans(k, t, k2.tcb[t], k2, k3.tcb[t], k3);
    ChangedTrans(k, t, k3.tcb[t], k3, k'.tcb[t], k');
    ChangedInv(k, t, k'.tcb[t], k');
  }

  lemma ResumeInv(k: K, t: Task, isr: bool) returns (k': K)
    requires Inv(k) && t in k.tcb
    ensures k' == (if isr then ResumeFromISR(k, t) else ResumeTask(k, t)) && Inv(k')
    ensures var stays := k.tcb[t].stateIn != Some(SuspendedTasks) || Waits(k.tcb[t]) || (!isr && t == k.current);
            Changed(k, t, if stays then k.tcb[t] else ReadiedTcb(k.tcb[t], isr && k.suspended != 0), k') &&
            (!stays && isr && k.suspended != 0 ==> Items(k', PendingReady) == Items(k, PendingReady) + [t])
  {
    if !IsSuspended(k.tcb[t]) || (!isr && t == k.current) {
      k' := k;
      assert k.tcb == k.tcb[t := k.tcb[t]];
    } else {
      if isr && k.suspended != 0 {
        k' := AppendOk(k, t, PendingReady);
      } else {
        k' := RereadyOk(k, t);
      }
      ChangedInv(k, t, k'.tcb[t], k');
    }
  }

  /** The task waits for an event or for a notification. */
  predicate Waits(tcb: Tcb) {
    tcb.eventIn.Some? || tcb.notify.Waiting?
  }

  /** Neither running, nor ready or about to be, nor waiting for its own deletion; and if it is on the list of
      suspended tasks, that is because it waits for ever. */
  predicate IsAsleep(k: K, t: Task)
    requires t in k.tcb
  {
    var tcb := k.tcb[t];
    && t != k.current && tcb.eventIn != Some(PendingReady)
    && tcb.stateIn != Some(Ready(tcb.prio)) && tcb.stateIn != Some(WaitingTermination)
    && (tcb.stateIn == Some(SuspendedTasks) ==> Waits(tcb))
  }

  /** These are the tasks that `TaskGetState` calls blocked. */
  lemma BlockedIff(k: K, t: Task)
    requires Inv(k) && t in k.tcb
    ensures IsBlocked(k, t) <==> IsAsleep(k, t)
  {
    assert Settled(k.tcb[t]) && PriorityOk(k.tcb[t]);
    assert Linked(k, t, k.tcb[t].Container(State), State);
  }

  lemma AbortDelayInv(k: K, t: Task) returns (k': K)
    requires Inv(k) && t in k.tcb
    ensures k' == AbortDelay(k, t) && Inv(k') && (IsBlocked(k, t) <==> IsAsleep(k, t))
    ensures Changed(k, t, if IsAsleep(k, t) then AbortedTcb(k.tcb[t]) else k.tcb[t], k') && ChangedAt(k, t, k')
  {
    BlockedIff(k, t);
    hide IsAsleep;
    if !IsBlocked(k, t) {
      k' := k;
      assert k.tcb == k.tcb[t := k.tcb[t]];
    } else {
      assert PriorityOk(k.tcb[t]);
      var k1 := RelabelOk(k, t, k.tcb[t].(delayAborted := k.tcb[t].delayAborted || k.tcb[t].eventIn.Some?));
      k' := RouseSteady(k1, t, State);
      ChangedTrans(k, t, k1.tcb[t], k1, k'.tcb[t], k');
      ChangedInv(k, t, k'.tcb[t], k');
    }
  }

  lemma ParkedChanged(k: K, ticks: nat, indefinitely: bool, k': K)
    requires k.current in k.tcb && Parked(k, ticks, indefinitely, k')
    ensures ChangedAt(k, k.current, k')
  {
    assert k'.tcb == k.tcb[k.current := k'.tcb[k.current]];
  }

  lemma DelayInv(k: K, ticks: nat, indefinitely: bool) returns (k': K)
    requires Inv(k) && Runs(k) && 0 < ticks < M
    ensures k' == DelayCurrent(k, ticks, indefinitely) && Inv(k') && ChangedAt(k, k.current, k')
    ensures k'.tcb[k.current].eventIn == k.tcb[k.current].eventIn
    ensures Asleep(k, ticks, indefinitely, k')
  {
    k' := DelayCurrentOk(k, ticks, indefinitely);
    ParkedChanged(k, ticks, indefinitely, k');
    ChangedInv(k, k.current, k'.tcb[k.current], k');
  }

  lemma JoinEventOk(k: K, q: nat) returns (k': K)
    requires Inv(k) && k.tcb[k.current].eventIn.None? && !k.tcb[k.current].notify.Waiting? && Runs(k)
    ensures k' == InsertInto(k, k.current, Event(q)) && Inv(k') && Runs(k')
    ensures k'.due == k.due && k'.current == k.current && k'.clock == k.clock
    ensures Changed(k, k.current, k.tcb[k.current].(eventIn := Some(Event(q))), k')
  {
    var t := k.current;
    var pos := InsertPos(Keys(k, Event(q)), k.tcb[t].Key(EventItem));
    k' := InsertInto(k, t, Event(q));
    PutCore(k, t, Event(q), pos);
    assert forall p :: ListOf(k', Ready(p)) == ListOf(k, Ready(p));
    ChangedInv(k, t, k'.tcb[t], k');
  }

  /** A task that goes to sleep: on a delay list until the given time, unless it waits for ever. */
  ghost predicate Asleep(k: K, ticks: nat, indefinitely: bool, k': K) {
    if ticks == MAX_DELAY && indefinitely then k.current in k'.tcb && k'.tcb[k.current].stateIn == Some(SuspendedTasks)
    else Blocked(k', k.current) && k'.due == k.due[k.current := k.clock + ticks]
  }

  lemma BlockOnInv(k: K, q: nat, ticks: nat) returns (k': K)
    requires Inv(k) && Runs(k) && 0 < ticks < M && k.tcb[k.current].eventIn.None? && !k.tcb[k.current].notify.Waiting?
    ensures k' == BlockOn(k, q, ticks) && Inv(k') && ChangedAt(k, k.current, k') && Asleep(k, ticks, true, k')
    ensures k'.tcb[k.current].eventIn == Some(Event(q))
  {
    var k1 := JoinEventOk(k, q);
    k' := DelayInv(k1, ticks, true);
    AsleepAfterJoin(k, k1, k1.tcb[k.current], ticks, k');
  }

  lemma AsleepAfterJoin(k: K, k1: K, tcb: Tcb, ticks: nat, k': K)
    requires k.current in k.tcb && Changed(k, k.current, tcb, k1) && k1.due == k.due && ChangedAt(k1, k1.current, k') &&
             Asleep(k1, ticks, true, k')
    ensures ChangedAt(k, k.current, k') && Asleep(k, ticks, true, k')
  {
    ChangedTrans(k, k.current, tcb, k1, k'.tcb[k.current], k');
  }

  lemma HeadLinked(k: K, id: ListId)
    requires Links(k) && Items(k, id) != []
    ensures Head(k, id) in k.tcb && k.tcb[Head(k, id)].Container(KindOf(id)) == Some(id)
  {
    assert Head(k, id) in Items(k, id);
  }

  lemma WakeFromInv(k: K, q: nat) returns (k': K)
    requires Inv(k) && Items(k, Event(q)) != []
    ensures Head(k, Event(q)) in k.tcb && k' == WakeFrom(k, q) && Inv(k')
    ensures Changed(k, Head(k, Event(q)), WokenByEventTcb(k.tcb[Head(k, Event(q))], k.suspended != 0), k')
    ensures ChangedAt(k, Head(k, Event(q)), k')
    ensures k.suspended != 0 ==> Items(k', PendingReady) == Items(k, PendingReady) + [Head(k, Event(q))]
  {
    hide Links, Bitmap, NoneOverdue, Epochs;
    var t := Head(k, Event(q));
    HeadLinked(k, Event(q));
    assert PriorityOk(k.tcb[t]) && Settled(k.tcb[t]);
    if k.suspended == 0 {
      k' := RouseSteady(k, t, EventItem);
    } else {
      var k1 := TakeEventOk(k, t);
      k' := AppendOk(k1, t, PendingReady);
      ChangedTrans(k, t, k1.tcb[t], k1, k'.tcb[t], k');
    }
    ChangedInv(k, t, k'.tcb[t], k');
  }

  lemma NotifyInv(k: K, t: Task, isr: bool) returns (k': K)
    requires Inv(k) && t in k.tcb && k.tcb[t].stateIn != Some(WaitingTermination)
    ensures k' == (if isr then NotifyFromISR(k, t) else NotifyTask(k, t)) && Inv(k')
    ensures Changed(k, t, NotifiedTcb(k.tcb[t], isr && k.suspended != 0), k')
    ensures k.tcb[t].notify.Waiting? && isr && k.suspended != 0 ==>
              Items(k', PendingReady) == Items(k, PendingReady) + [t]
  {
    hide Links, Bitmap, NoneOverdue, Epochs;
    assert PriorityOk(k.tcb[t]) && Settled(k.tcb[t]);
    var k1 := RelabelOk(k, t, k.tcb[t].(notify := Received));
    if !k.tcb[t].notify.Waiting? {
      k' := k1;
    } else {
      if isr && k.suspended != 0 {
        k' := AppendOk(k1, t, PendingReady);
      } else {
        k' := RereadyOk(k1, t);
      }
      ChangedTrans(k, t, k1.tcb[t], k1, k'.tcb[t], k');
    }
    ChangedInv(k, t, k'.tcb[t], k');
  }

  lemma WaitInv(k: K, begin: bool) returns (k': K)
    requires Inv(k) && (begin ==> k.tcb[k.current].eventIn.None?)
    ensures k' == (if begin then WaitBegin(k) else WaitEnd(k)) && Inv(k') &&
            Changed(k, k.current, WaitingTcb(k.tcb[k.current], begin), k')
  {
    var tcb := k.tcb[k.current];
    assert PriorityOk(tcb) && Settled(tcb);
    if begin && tcb.notify.Received? {
      k' := k;
      assert k.tcb == k.tcb[k.current := tcb];
    } else {
      k' := RelabelOk(k, k.current, tcb.(notify := if begin then Waiting else NotWaiting));
      ChangedInv(k, k.current, k'.tcb[k.current], k');
    }
  }
}

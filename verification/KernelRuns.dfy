/** Runs of the kernel: the steps that affect more than one task, the step relation, and what every
    run keeps. */
module KernelRuns {
  import opened Basics
  import opened Rings
  import opened KernelModel
  import opened KernelSteps
  import opened KernelApi
  import opened KernelInvariant

  // ----- creation, deletion, clean-up

  lemma CreateTaskInv(k: K, t: Task, priority: nat) returns (k': K)
    requires Inv(k) && t !in k.tcb
    ensures k' == CreateTask(k, t, priority) && Inv(k') && Created(k, t, k')
    ensures IsNew(k'.tcb[t], Min(priority, MAX_PRIORITIES - 1))
  {
    var k1 := EnrolOk(k, t, NewTcb(priority));
    k' := AddReadyOk(k1, t);
    CreatedBy(k, t, k1, k');
    CreatedInv(k, t, k');
  }

  /** Ready at priority p, holding nothing and waiting for nothing. */
  predicate IsNew(tcb: Tcb, p: nat) {
    && tcb.prio == p && tcb.base == p && tcb.stateIn == Some(Ready(p)) && tcb.eventIn.None?
    && tcb.mutexesHeld == 0 && tcb.eventValue + p == MAX_PRIORITIES && !tcb.delayAborted && tcb.notify.NotWaiting?
  }

  /** One more task, ready; the others as they were. */
  ghost predicate Created(k: K, t: Task, k': K) {
    && t in k'.tcb && t !in k.tcb
    && k' == k.(lists := k'.lists, tcb := k.tcb[t := k'.tcb[t]], top := k'.top, numTasks := k.numTasks + 1)
    && k'.tcb[t].stateIn == Some(Ready(k'.tcb[t].prio))
    && ListOf(k', WaitingTermination) == ListOf(k, WaitingTermination)
  }

  lemma CreatedBy(k: K, t: Task, k1: K, k': K)
    requires t !in k.tcb && t in k1.tcb && k1 == Enrol(k, t, k1.tcb[t]) && Readied(k1, t, k')
    ensures Created(k, t, k')
  {
    assert k'.tcb == k.tcb[t := k'.tcb[t]];
  }

  lemma CreatedInv(k: K, t: Task, k': K)
    requires Inv(k) && Created(k, t, k') && Steady(k')
    ensures Inv(k')
  {
    assert k'.tcb.Keys == k.tcb.Keys + {t};
    assert |k'.tcb| == |k'.tcb.Keys| && |k.tcb| == |k.tcb.Keys|;
  }

  /** A new task block that is on no list. */
  lemma EnrolOk(k: K, t: Task, tcb: Tcb) returns (k': K)
    requires Steady(k) && t !in k.tcb
    requires tcb.stateIn.None? && tcb.eventIn.None? && PriorityOk(tcb)
    ensures k' == Enrol(k, t, tcb)
    ensures Steady(k') && t in k'.tcb && k'.tcb[t] == tcb
  {
    k' := Enrol(k, t, tcb);
    forall id ensures Items(k', id) == Items(k, id) {
    }
    KeysFrame(k, k', k.delayed);
    KeysFrame(k, k', k.overflow);
    forall u, kd | u in k'.tcb ensures Linked(k', u, k'.tcb[u].Container(kd), kd) {
      if u != t {
        assert Linked(k, u, k.tcb[u].Container(kd), kd);
      }
    }
    forall u | u in k'.tcb ensures WakeOk(k', u) && PriorityOk(k'.tcb[u]) {
      if u != t {
        assert WakeOk(k, u) && PriorityOk(k.tcb[u]);
      }
    }
  }

  /** Dropping a task block that is on no list. */
  lemma ForgetOk(k: K, t: Task) returns (k': K)
    requires Steady(k) && t in k.tcb && t != k.current && k.tcb[t].stateIn.None? && k.tcb[t].eventIn.None?
    ensures k' == Forget(k, t)
    ensures Steady(k') && Forgotten(k, t, k')
  {
    k' := Forget(k, t);
    ForgetLinks(k, t, k');
    ForgetKeys(k, t, k', k.delayed);
    ForgetKeys(k, t, k', k.overflow);
    forall u | u in k'.tcb ensures WakeOk(k', u) && PriorityOk(k'.tcb[u]) {
      assert WakeOk(k, u) && PriorityOk(k.tcb[u]);
    }
    CountWithout(k.tcb, t);
  }

  ghost predicate Forgotten(k: K, t: Task, k': K) {
    && k' == k.(tcb := k.tcb - {t}) && |k'.tcb| == |k.tcb| - 1
  }

  lemma CountWithout<A, B>(m: map<A, B>, a: A)
    requires a in m
    ensures |m - {a}| == |m| - 1
  {
    assert (m - {a}).Keys == m.Keys - {a};
    assert |m - {a}| == |(m - {a}).Keys| && |m| == |m.Keys|;
  }

  lemma ForgetLinks(k: K, t: Task, k': K)
    requires Links(k) && t in k.tcb && t != k.current && k.tcb[t].stateIn.None? && k.tcb[t].eventIn.None? &&
             k' == Forget(k, t)
    ensures Links(k')
    ensures forall id :: Items(k', id) == Items(k, id) && t !in Items(k, id)
  {
    forall id ensures Items(k', id) == Items(k, id) && t !in Items(k, id) {
    }
    forall u, kd | u in k'.tcb ensures Linked(k', u, k'.tcb[u].Container(kd), kd) {
      assert Linked(k, u, k.tcb[u].Container(kd), kd);
    }
  }

  lemma ForgetKeys(k: K, t: Task, k': K, id: ListId)
    requires Links(k) && k' == Forget(k, t) && t !in Items(k, id)
    ensures Keys(k', id) == Keys(k, id)
  {
    assert Items(k', id) == Items(k, id);
    assert forall i :: 0 <= i < |Items(k, id)| ==> Items(k, id)[i] in Items(k, id);
  }

  lemma CountChange(k: K, numTasks: nat, deletedWaiting: nat) returns (k': K)
    requires Steady(k)
    ensures k' == k.(numTasks := numTasks, deletedWaiting := deletedWaiting)
    ensures Steady(k') && forall id :: Items(k', id) == Items(k, id)
  {
    k' := k.(numTasks := numTasks, deletedWaiting := deletedWaiting);
    SameTasks(k, k');
    forall u | u in k'.tcb ensures WakeOk(k', u) {
      assert WakeOk(k, u);
    }
  }

  lemma TasksExist(k: K)
    requires Inv(k)
    ensures k.numTasks > 0
  {
    assert k.current in k.tcb.Keys;
    assert |k.tcb| == |k.tcb.Keys|;
  }

  /** A deleted task either is gone at once or waits for the idle task; the counts agree. */
  lemma DeleteTaskInv(k: K, t: Task) returns (k': K)
    requires Inv(k) && t in k.tcb && k.tcb[t].stateIn != Some(WaitingTermination)
    ensures k' == DeleteTask(k, t) && Inv(k') && Deleted(k, t, k')
    ensures t != k.current ==> CacheExact(k')
  {
    TasksExist(k);
    var k1 := DetachOk(k, t);
    if t == k.current {
      var k2 := AppendOk(k1, t, WaitingTermination);
      k' := CountChange(k2, k2.numTasks, k2.deletedWaiting + 1);
      DeletedSelf(k, t, k1, k2, k');
    } else {
      var k2 := CountChange(k1, k1.numTasks - 1, k1.deletedWaiting);
      var k3 := ResetOk(k2, t);
      k' := ForgetOk(k3, t);
      DeletedOther(k, t, k1, k2, k3, k');
      CacheForgets(k3, t);
    }
    DeletedInv(k, t, k');
  }

  lemma CacheForgets(k: K, t: Task)
    requires Core(k) && CacheExact(k) && t in k.tcb && k.tcb[t].stateIn.None?
    ensures CacheExact(Forget(k, t))
  {
    if Items(k, k.delayed) != [] {
      HeadLinked(k, k.delayed);
    }
    assert Items(Forget(k, t), k.delayed) == Items(k, k.delayed);
  }

  ghost predicate Deleted(k: K, t: Task, k': K)
    requires t in k.tcb
  {
    && k' == k.(lists := k'.lists, tcb := k'.tcb, top := k'.top, nextUnblock := k'.nextUnblock, due := k'.due,
                numTasks := k'.numTasks, deletedWaiting := k'.deletedWaiting)
    && (forall u :: u in k.tcb && u != t ==> u in k'.tcb && k'.tcb[u] == k.tcb[u])
    && (forall u :: u != t && u in k.due ==> u in k'.due && k'.due[u] == k.due[u])
    && (if t == k.current then
          && k'.tcb.Keys == k.tcb.Keys
          && k'.tcb[t].stateIn == Some(WaitingTermination) && k'.tcb[t].eventIn.None?
          && |Items(k', WaitingTermination)| == |Items(k, WaitingTermination)| + 1
          && k'.numTasks == k.numTasks && k'.deletedWaiting == k.deletedWaiting + 1
        else
          && k'.tcb.Keys == k.tcb.Keys - {t}
          && Items(k', WaitingTermination) == Items(k, WaitingTermination)
          && k'.numTasks == k.numTasks - 1 && k'.deletedWaiting == k.deletedWaiting)
  }

  lemma DeletedSelf(k: K, t: Task, k1: K, k2: K, k': K)
    requires t in k.tcb && t == k.current
    requires Changed(k, t, k.tcb[t].(stateIn := None, eventIn := None), k1) && Joined(k1, t, WaitingTermination, k2)
    requires k' == k2.(numTasks := k2.numTasks, deletedWaiting := k2.deletedWaiting + 1)
    ensures Deleted(k, t, k')
  {
  }

  lemma DeletedOther(k: K, t: Task, k1: K, k2: K, k3: K, k': K)
    requires t in k.tcb && t != k.current && k.numTasks > 0
    requires Changed(k, t, k.tcb[t].(stateIn := None, eventIn := None), k1)
    requires k2 == k1.(numTasks := k1.numTasks - 1, deletedWaiting := k1.deletedWaiting)
    requires ChangedAt(k2, t, k3) && Forgotten(k3, t, k')
    ensures Deleted(k, t, k')
  {
  }

  lemma DeletedInv(k: K, t: Task, k': K)
    requires Inv(k) && t in k.tcb && Deleted(k, t, k') && Steady(k')
    ensures Inv(k')
  {
    hide Steady;
    assert |k'.tcb| == |k'.tcb.Keys| && |k.tcb| == |k.tcb.Keys|;
  }

  lemma CleanUpInv(k: K) returns (k': K)
    requires Inv(k) && Runs(k) && k.deletedWaiting > 0
    ensures k' == CleanUp(k) && Inv(k')
    ensures Items(k, WaitingTermination) != [] && CleanedUp(k, Head(k, WaitingTermination), k')
  {
    TasksExist(k);
    var t := Head(k, WaitingTermination);
    HeadLinked(k, WaitingTermination);
    assert Settled(k.tcb[t]);
    var k1 := TakeCore(k, State, t);
    TakenBitmap(k, State, t, k1);
    var k2 := CountChange(k1, k.numTasks - 1, k.deletedWaiting - 1);
    k' := ForgetOk(k2, t);
    CleanedUpBy(k, t, k1, k2, k');
    CleanedUpInv(k, t, k');
  }

  ghost predicate CleanedUp(k: K, t: Task, k': K) {
    && k' == k.(lists := k'.lists, tcb := k'.tcb, numTasks := k'.numTasks, deletedWaiting := k'.deletedWaiting)
    && (forall u :: u in k.tcb && u != t ==> u in k'.tcb && k'.tcb[u] == k.tcb[u])
    && k'.tcb.Keys == k.tcb.Keys - {t}
    && |Items(k', WaitingTermination)| == |Items(k, WaitingTermination)| - 1
    && k'.numTasks == k.numTasks - 1 && k'.deletedWaiting == k.deletedWaiting - 1
  }

  lemma CleanedUpBy(k: K, t: Task, k1: K, k2: K, k': K)
    requires t in k.tcb && k.tcb[t].stateIn == Some(WaitingTermination) && k.numTasks > 0 && k.deletedWaiting > 0
    requires Taken(k, State, t, k1) && k2 == k1.(numTasks := k.numTasks - 1, deletedWaiting := k.deletedWaiting - 1)
    requires Forgotten(k2, t, k')
    ensures CleanedUp(k, t, k')
  {
  }

  lemma CleanedUpInv(k: K, t: Task, k': K)
    requires Inv(k) && t in k.tcb && CleanedUp(k, t, k') && Steady(k')
    ensures Inv(k')
  {
    assert |k'.tcb| == |k'.tcb.Keys| && |k.tcb| == |k.tcb.Keys|;
  }

  // ----- context switch

  /** Some task is ready: the idle task never blocks. */
  ghost predicate SomeReady(k: K) {
    exists t :: t in k.tcb && IsReady(k, t)
  }

  predicate IsReady(k: K, t: Task) {
    t in k.tcb && k.tcb[t].stateIn == Some(Ready(k.tcb[t].prio))
  }

  lemma ReadyBits(k: K, t: Task)
    requires Steady(k) && IsReady(k, t)
    ensures k.tcb[t].prio in k.top && k.tcb[t].prio < MAX_PRIORITIES
  {
    DelayedMembers(k, t);
    assert PriorityOk(k.tcb[t]);
  }

  /** `SwitchContext` selects, among the ready tasks of the highest ready priority, the one whose
      turn it is, and changes nothing but the cursor of their list. */
  lemma SwitchInv(k: K) returns (k': K)
    requires Inv(k) && (k.suspended == 0 ==> SomeReady(k))
    ensures k' == Switch(k) && Inv(k')
    ensures k' == k.(lists := k'.lists, current := k'.current)
    ensures k.suspended == 0 ==> Selected(k, k'.current)
  {
    if k.suspended != 0 {
      k' := k;
    } else {
      var r :| r in k.tcb && IsReady(k, r);
      ReadyBits(k, r);
      var p := HighestBit(k.top, MAX_PRIORITIES);
      assert Items(k, Ready(p)) != [];
      AdvanceRotates(ListOf(k, Ready(p)));
      k' := Switch(k);
      SwitchedSteady(k, Ready(p), k');
      forall t | IsReady(k, t) ensures k.tcb[t].prio <= p {
        ReadyBits(k, t);
      }
    }
  }

  ghost predicate Selected(k: K, t: Task) {
    && IsReady(k, t)
    && (forall u :: IsReady(k, u) ==> k.tcb[u].prio <= k.tcb[t].prio)
    && var r := ListOf(k, Ready(k.tcb[t].prio)); r.items != [] && t == Visits(r)[0]
  }

  lemma SwitchedSteady(k: K, id: ListId, k': K)
    requires Steady(k) && Items(k, id) != [] && id.Ready?
    requires k' == k.(lists := k.lists[id := Advance(ListOf(k, id))], current := k'.current) &&
             k'.current in Items(k, id)
    ensures Steady(k') && IsReady(k, k'.current) && k.tcb[k'.current].prio == id.prio
    ensures forall id' :: Items(k', id') == Items(k, id')
  {
    AdvanceRotates(ListOf(k, id));
    OnReadyList(k, id, k'.current);
    SwitchedLinks(k, id, k');
    forall u | u in k'.tcb ensures WakeOk(k', u) {
      assert WakeOk(k, u);
    }
  }

  lemma OnReadyList(k: K, id: ListId, t: Task)
    requires Links(k) && Priorities(k) && id.Ready? && t in Items(k, id)
    ensures IsReady(k, t) && k.tcb[t].prio == id.prio
  {
    assert PriorityOk(k.tcb[t]);
  }

  lemma SwitchedLinks(k: K, id: ListId, k': K)
    requires Links(k) && id.Ready? && k'.current in k.tcb && k'.tcb == k.tcb
    requires k'.lists == k.lists[id := Advance(ListOf(k, id))]
    ensures Links(k')
    ensures forall id' :: Items(k', id') == Items(k, id') && Keys(k', id') == Keys(k, id')
  {
    forall id' ensures Items(k', id') == Items(k, id') && Keys(k', id') == Keys(k, id') {
    }
    forall u, kd | u in k'.tcb ensures Linked(k', u, k'.tcb[u].Container(kd), kd) {
      assert Linked(k, u, k.tcb[u].Container(kd), kd);
    }
  }

  // ----- ticks

  lemma TickedInv(k: K, k': K)
    requires Inv(k) && Ticked(k, k') && Steady(k')
    ensures Inv(k')
  {
    SameCount(k.tcb, k'.tcb);
    assert ListOf(k', WaitingTermination) == ListOf(k, WaitingTermination);
  }

  lemma SameCount<A, B>(m: map<A, B>, m': map<A, B>)
    requires m.Keys == m'.Keys
    ensures |m| == |m'|
  {
    assert |m| == |m.Keys| && |m'| == |m'.Keys|;
  }

  lemma ProcessTickInv(k: K) returns (k': K)
    requires Inv(k)
    ensures k' == ProcessTick(k)
    ensures Inv(k') && TickedBetween(k, 1, k')
  {
    k' := TickOk(k);
    TickedInv(k, k');
  }

  lemma TickedTrans(k: K, k1: K, k2: K)
    requires Ticked(k, k1) && Ticked(k1, k2) && k.clock <= k1.clock <= k2.clock && IsDelayList(k.delayed) &&
             IsDelayList(k.overflow)
    ensures Ticked(k, k2)
  {
    forall t | t in k.tcb ensures k2.tcb[t] == TickedTcb(k, t, k2.clock) {
      assert k1.tcb[t] == TickedTcb(k, t, k1.clock) && k2.tcb[t] == TickedTcb(k1, t, k2.clock);
      assert k.delayed in {k1.delayed, k1.overflow} && k.overflow in {k1.delayed, k1.overflow};
      assert k1.delayed in {k.delayed, k.overflow} && k1.overflow in {k.delayed, k.overflow};
    }
  }

  ghost predicate TickedBetween(k: K, n: nat, k': K) {
    k'.clock == k.clock + n && Ticked(k, k')
  }

  lemma TickedStep(k: K, n: nat, k1: K, k2: K)
    requires Inv(k) && n > 0 && TickedBetween(k, 1, k1) && TickedBetween(k1, n - 1, k2)
    ensures TickedBetween(k, n, k2)
  {
    TickedTrans(k, k1, k2);
  }

  /** Induction over a repeated step, for an invariant and a relation that composes. */
  lemma {:induction false} TimesInduction<S(!new)>(step: S -> S, n: nat, s: S, inv: S -> bool, rel: (S, nat, S) -> bool)
    requires forall x {:trigger step(x)} :: inv(x) ==> inv(step(x)) && rel(x, 1, step(x))
    requires forall x :: inv(x) ==> rel(x, 0, x)
    requires forall x, y, z, m: nat {:trigger rel(x, 1, y), rel(y, m, z)} :: inv(x) && rel(x, 1, y) && rel(y, m, z) ==>
                 rel(x, m + 1, z)
    requires inv(s)
    ensures inv(Times(step, n, s)) && rel(s, n, Times(step, n, s))
    decreases n
  {
    if n > 0 {
      TimesInduction(step, n - 1, step(s), inv, rel);
    }
  }

  lemma TickCloses()
    ensures forall s {:trigger ProcessTick(s)} :: Inv(s) ==> Inv(ProcessTick(s)) && TickedBetween(s, 1, ProcessTick(s))
  {
    forall s | Inv(s) ensures Inv(ProcessTick(s)) && TickedBetween(s, 1, ProcessTick(s)) {
      var s' := ProcessTickInv(s);
    }
  }

  lemma TickComposes()
    ensures forall x, y, z, m: nat {:trigger TickedBetween(x, 1, y), TickedBetween(y, m, z)} ::
              Inv(x) && TickedBetween(x, 1, y) && TickedBetween(y, m, z) ==> TickedBetween(x, m + 1, z)
  {
    forall x, y, z, m: nat | Inv(x) && TickedBetween(x, 1, y) &&
        TickedBetween(y, m, z) ensures TickedBetween(x, m + 1, z) {
      TickedStep(x, m + 1, y, z);
    }
  }

  /** After n processed ticks exactly the tasks due within them have been readied. */
  lemma TickNInv(k: K, n: nat) returns (k': K)
    requires Inv(k)
    ensures k' == TickN(k, n)
    ensures Inv(k') && TickedBetween(k, n, k')
  {
    TickCloses();
    TickComposes();
    TimesInduction(ProcessTick, n, k, Inv, TickedBetween);
    k' := TickN(k, n);
  }

  // ----- ResumeAll

  /** The tasks of `ts` are ready and on no event list; the others are as they were. */
  ghost predicate Drained(k: K, ts: seq<Task>, k': K) {
    && k' == k.(lists := k'.lists, tcb := k'.tcb, top := k'.top)
    && k'.tcb.Keys == k.tcb.Keys
    && (forall t :: t in k.tcb ==> k'.tcb[t] == if t in ts then WokenTcb(k.tcb[t]) else k.tcb[t])
  }

  lemma DrainedCons(k: K, ts: seq<Task>, k1: K, k': K)
    requires ts != [] && ts[0] in k.tcb && Roused(k, ts[0], k1) && Drained(k1, ts[1..], k')
    ensures Drained(k, ts, k')
  {
    assert forall u :: u in ts <==> u == ts[0] || u in ts[1..];
    assert k1 == k.(lists := k1.lists, tcb := k1.tcb, top := k1.top);
  }

  lemma DrainStep(k: K, ts: seq<Task>) returns (k1: K)
    requires Inv(k) && ts != [] && ts == Items(k, PendingReady)
    ensures ts[0] in k.tcb && k1 == Rouse(k, ts[0], EventItem)
    ensures Inv(k1) && ts[1..] == Items(k1, PendingReady) && Roused(k, ts[0], k1)
  {
    hide Bitmap, NoneOverdue, Epochs, Priorities;
    var t := ts[0];
    HeadLinked(k, PendingReady);
    assert Settled(k.tcb[t]);
    k1 := RouseOk(k, t, EventItem);
    assert IndexOf(ts, t) == 0 && DropAt(ts, 0) == ts[1..];
    RousedChanged(k, t, k1);
    ChangedInv(k, t, WokenTcb(k.tcb[t]), k1);
  }

  lemma {:induction false} DrainInv(k: K, ts: seq<Task>) returns (k': K)
    requires Inv(k) && ts == Items(k, PendingReady)
    ensures k' == Drain(k, ts)
    ensures Inv(k') && Drained(k, ts, k')
    decreases |ts|
  {
    if ts == [] {
      k' := k;
    } else {
      var k1 := DrainStep(k, ts);
      k' := DrainInv(k1, ts[1..]);
      DrainedCons(k, ts, k1, k');
    }
  }

  /** `ResumeAll`, when it ends the suspension: the pending tasks are ready, the pended ticks have
      been replayed, and the tasks that came due meanwhile are ready too. */
  ghost predicate Resumed(k: K, k': K) {
    && k'.pended == 0 && k'.clock == k.clock + k.pended
    && k'.suspended == 0 && k'.current == k.current && k'.due == k.due
    && {k'.delayed, k'.overflow} == {k.delayed, k.overflow}
    && k'.tcb.Keys == k.tcb.Keys
    && (forall t :: t in k.tcb ==>
          k'.tcb[t] == if t in Items(k, PendingReady) then WokenTcb(k.tcb[t]) else TickedTcb(k, t, k'.clock))
  }

  lemma ResumeAllInv(k: K) returns (k': K)
    requires Inv(k) && k.suspended > 0
    ensures k' == ResumeAll(k) && Inv(k')
    ensures if k.suspended > 1 then k' == k.(suspended := k.suspended - 1) else Resumed(k, k')
  {
    TasksExist(k);
    var k1 := Resuspended(k, k.suspended - 1, k.pended);
    if k1.suspended > 0 {
      k' := k1;
    } else {
      k' := ReplayInv(k, k1);
    }
  }

  /** What is left to do once the scheduler runs again. */
  lemma ReplayInv(k: K, k1: K) returns (k': K)
    requires Inv(k) && Inv(k1) && k.suspended == 1 && k1 == k.(suspended := 0) && k1.numTasks > 0
    ensures k' == ResumeAll(k) && Inv(k') && Resumed(k, k')
  {
    var k2 := MovePendingInv(k1);
    var k3 := TickNInv(k2, k2.pended);
    k' := Resuspended(k3, k3.suspended, 0);
    ResumedBy(k, k1, k2, k3, k');
  }

  lemma MovePendingInv(k: K) returns (k': K)
    requires Inv(k)
    ensures k' == MovePending(k) && Inv(k')
    ensures Drained(k, Items(k, PendingReady), k'.(nextUnblock := k.nextUnblock))
    ensures Items(k, PendingReady) != [] ==> CacheExact(k')
  {
    var ts := Items(k, PendingReady);
    var k1 := DrainInv(k, ts);
    k' := k1;
    if ts != [] {
      k' := ResetInv(k1);
    }
  }

  lemma Resuspended(k: K, suspended: nat, pended: nat) returns (k': K)
    requires Inv(k)
    ensures k' == k.(suspended := suspended, pended := pended)
    ensures Inv(k')
  {
    k' := k.(suspended := suspended, pended := pended);
    SameTasks(k, k');
    forall u | u in k'.tcb ensures WakeOk(k', u) {
      assert WakeOk(k, u);
    }
  }

  lemma ResetInv(k: K) returns (k': K)
    requires Inv(k)
    ensures k' == ResetNext(k)
    ensures Inv(k') && CacheExact(k')
  {
    k' := ResetOk(k, k.current);
    ChangedInv(k, k.current, k.tcb[k.current], k');
  }

  lemma ResumedBy(k: K, k1: K, k2: K, k3: K, k': K)
    requires Inv(k) && k.suspended == 1
    requires k1 == k.(suspended := 0) && Drained(k1, Items(k1, PendingReady), k2.(nextUnblock := k1.nextUnblock))
    requires TickedBetween(k2, k2.pended, k3) && k' == k3.(pended := 0)
    ensures Resumed(k, k')
  {
    hide Links;
    forall t | t in k.tcb
      ensures k'.tcb[t] == if t in Items(k, PendingReady) then WokenTcb(k.tcb[t]) else TickedTcb(k, t, k'.clock)
    {
      assert k3.tcb[t] == TickedTcb(k2, t, k3.clock);
    }
  }
}

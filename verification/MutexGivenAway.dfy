/** A mutex that is given by a task other than its holder: a run from boot in which that leaves the ready
    bitmap wrong, and with it the exact condition under which the bitmap can go wrong at all. */
module MutexGivenAway {
  import opened Basics
  import opened Rings
  import opened KernelModel
  import opened KernelSteps
  import opened KernelApi
  import opened KernelInvariant
  import opened KernelRuns
  import opened KernelTicks
  import opened Mutex
  import opened MutexRuns
  import opened MutexTheorems
  import opened MutexSelfTake
  import I = Inheritance

  /** The low task holds the mutex, with the priority of the high one. */
  predicate HolderLent(k: K) {
    && 1 in k.tcb && k.tcb[1].prio == 5 && k.tcb[1].base == 1 && k.tcb[1].mutexesHeld == 1
    && Quiet(k, 1)
  }

  /** The third task is there, and the high one waits for one more tick. */
  ghost predicate Third(x: X) {
    && Inv(x.k) && x.k.suspended == 0 && HolderLent(x.k) && x.k.tcb.Keys == {1, 2, 3}
    && x.holder == Some(1) && x.phase.Keys == {1, 2, 3} && x.phase[3].Idle?
    && Sleeps(x.k, 2, x.k.clock + 1)
    && IsReady(x.k, 3) && x.k.tcb[3].prio == 5 && x.k.tcb[3].eventIn.None?
  }

  /** The holder sleeps, and the two others are ready at the priority it was lent. */
  ghost predicate ReadyToGive(x: X) {
    && Inv(x.k) && HolderLent(x.k) && x.k.tcb.Keys == {1, 2, 3} && x.holder == Some(1)
    && Blocked(x.k, 1) && IsReady(x.k, 2) && IsReady(x.k, 3) && x.k.tcb[3].prio == 5
    && x.k.tcb[2].eventIn.None? && x.k.tcb[3].eventIn.None?
    && x.k.current == 3 && 3 in x.phase && x.phase[3].Idle?
  }

  // ----- a third task

  /** While the high task waits, for one tick, the holder creates another task of its priority. */
  lemma ThirdComes(a: Allowed) returns (x: X)
    ensures Reached(a, x) && Third(x) && x.k.current == 1 && Runs(x.k) && x.phase[1].Idle?
  {
    hide Reached, Inv, Keyed, View, Scene, Third, CreateTask, HolderLent, Sleeps;
    var y := LowHoldsHighWaits(a);
    LentFacts(y);
    x := ThirdFacts(y);
    ThenCreate(a, y, 3, 5, x);
  }

  lemma LentFacts(x: X)
    requires Scene(x, I.TwoTasks(5, I.Idle, I.Trying(true), {1}, [2])) && Quiet(x.k, 1)
    ensures Inv(x.k) && x.k.suspended == 0 && HolderLent(x.k) && x.k.tcb.Keys == {1, 2}
    ensures x.holder == Some(1) && x.phase == map[1 := I.Idle, 2 := I.Trying(true)]
  {
    hide Inv, View;
    HolderFacts(x, View(x));
    OnlyTwo(x, 5);
  }

  lemma ThirdFacts(x: X) returns (x': X)
    requires Inv(x.k) && x.k.suspended == 0 && HolderLent(x.k) && x.k.tcb.Keys == {1, 2}
    requires x.holder == Some(1) && x.phase == map[1 := I.Idle, 2 := I.Trying(true)]
    requires x.k.current == 1 && Runs(x.k) && Sleeps(x.k, 2, x.k.clock + 1)
    ensures x' == X(CreateTask(x.k, 3, 5), x.holder, x.phase[3 := I.Idle])
    ensures Third(x') && x'.k.current == 1 && Runs(x'.k) && x'.phase[1].Idle?
  {
    hide Inv;
    var k' := CreateTaskInv(x.k, 3, 5);
    CreatedTcb(x.k, 3, 5);
    hide CreateTask;
    x' := X(k', x.holder, x.phase[3 := I.Idle]);
  }

  // ----- the holder goes to sleep, and the new task runs

  lemma HolderSleeps(a: Allowed) returns (x: X)
    ensures Reached(a, x) && Third(x) && Sleeps(x.k, 1, x.k.clock + 100) && x.k.current == 1
  {
    hide Reached, Third, DelayCurrent, Sleeps;
    var y := ThirdComes(a);
    Known(y);
    var k' := Slept(y);
    x := y.(k := k');
    ThenDelay(a, y, 100, x);
  }

  lemma Known(x: X)
    requires Third(x) && x.k.current == 1
    ensures 1 in x.k.tcb && 1 in x.phase
  {
  }

  lemma Slept(x: X) returns (k': K)
    requires Third(x) && Runs(x.k) && x.k.current == 1
    ensures k' == DelayCurrent(x.k, 100, false) && Third(x.(k := k')) && Sleeps(k', 1, k'.clock + 100) &&
            k'.current == 1
  {
    hide Core, Bitmap, NoneOverdue, DelayCurrent;
    k' := DelayInv(x.k, 100, false);
    var k1 := DelayCurrentOk(x.k, 100, false);
  }

  lemma ThirdRuns(a: Allowed) returns (x: X)
    ensures Reached(a, x) && Third(x) && Sleeps(x.k, 1, x.k.clock + 100) && x.k.current == 3
  {
    hide Reached, Inv, Switch, HolderLent, Sleeps, Third;
    var y := HolderSleeps(a);
    var k' := ThirdSelected(y);
    x := y.(k := k');
    ThenSwitch(a, y, x);
  }

  lemma ThirdSelected(x: X) returns (k': K)
    requires Third(x) && Sleeps(x.k, 1, x.k.clock + 100)
    ensures k' == Switch(x.k) && Third(x.(k := k')) && Sleeps(k', 1, k'.clock + 100) && k'.current == 3
    ensures SomeReady(x.k) && x.k.current in x.k.tcb && x.k.current in x.phase
  {
    hide Inv;
    k' := SwitchInv(x.k);
    OnlyThird(x.k, k'.current);
  }

  lemma OnlyThird(k: K, t: Task)
    requires Inv(k) && k.tcb.Keys == {1, 2, 3} && Blocked(k, 1) && Blocked(k, 2) && Selected(k, t)
    ensures t == 3 && k.current in k.tcb
  {
  }

  // ----- the high task's time is up

  lemma HighIsBack(a: Allowed) returns (x: X)
    ensures Reached(a, x) && ReadyToGive(x)
  {
    hide Reached, Inv, Tick;
    var y := ThirdRuns(a);
    OnlyHighDue(y.k);
    var k' := Woke(y.k, 2);
    StillSleeps(y.k, 2, k', 1, y.k.clock + 100);
    x := y.(k := k');
    ThenTick(a, y, x);
  }

  lemma OnlyHighDue(k: K)
    requires Inv(k) && k.tcb.Keys == {1, 2, 3} && Sleeps(k, 2, k.clock + 1) && Sleeps(k, 1, k.clock + 100) &&
             IsReady(k, 3)
    ensures OnlyDue(k, 2)
  {
  }

  // ----- the new task gives the mutex

  /** Nobody waits any more, and the holder has its delay list to itself. */
  lemma GiveFacts(x: X)
    requires ReadyToGive(x)
    ensures Items(x.k, WAITERS) == [] && LeavesStaleBit(x.k, 1)
  {
    var k := x.k;
    var id := k.tcb[1].stateIn.value;
    if Items(k, WAITERS) != [] {
      HeadLinked(k, WAITERS);
      assert false;
    }
    forall t ensures t in Items(k, id) <==> t in [1] {
      if t in Items(k, id) {
        assert t in k.tcb && k.tcb[t].Container(State) == Some(id);
      }
      DelayedMembers(k, 1);
    }
    SameItems(Items(k, id), [1]);
    DelayedMembers(k, 3);
  }

  /** The mutex is given for the sleeping holder, and the bit of the priority it had been lent is cleared
      though two tasks of that priority are ready. */
  lemma GivenAwayRun(a: Allowed) returns (x: X)
    requires a.giveAway
    ensures Reached(a, x) && !Bitmap(x.k)
  {
    hide Reached, Inv, LeavesStaleBit, WakeFrom;
    var y := HighIsBack(a);
    GiveFacts(y);
    x := BitLost(y);
    ThenGiveAway(a, y, x);
  }

  lemma BitLost(y: X) returns (x: X)
    requires ReadyToGive(y) && Items(y.k, WAITERS) == [] && LeavesStaleBit(y.k, 1)
    ensures GivesAway(y, x) && !Bitmap(x.k)
  {
    GivenByAnotherIff(y.k, 1);
    NoWaiters(y.k);
    x := GiveMutex(y);
  }

  lemma NoWaiters(k: K)
    requires 1 in k.tcb && k.tcb[1].base <= MAX_PRIORITIES && Links(k) && Items(k, WAITERS) == []
    ensures Items(Disinherit(k, 1), WAITERS) == []
  {
    assert Linked(k, 1, k.tcb[1].Container(State), State);
  }

  // ----- the exact condition

  /** A run from boot that ends with the ready bitmap wrong. */
  ghost predicate BreaksBitmap(a: Allowed, t: Task, priority: nat, steps: seq<XStep>, x: X) {
    AnyRun(a, Booted(t, priority), steps, x) && !Bitmap(x.k)
  }

  /** The bitmap can go wrong if and only if a task may ask for a mutex it holds or give one it does not. */
  lemma BitmapBreaksIff(a: Allowed)
    ensures (exists t, priority, steps, x :: BreaksBitmap(a, t, priority, steps, x)) <==> a.selfTake || a.giveAway
  {
    if a.selfTake || a.giveAway {
      var x;
      if a.selfTake {
        x := StaleBitRun(a);
      } else {
        x := GivenAwayRun(a);
      }
      var steps :| AnyRun(a, Booted(1, 1), steps, x);
      assert BreaksBitmap(a, 1, 1, steps, x);
    } else {
      forall t, priority, steps, x | BreaksBitmap(a, t, priority, steps, x) ensures false {
        BootXInv(t, priority);
        NothingAllowed(a, Booted(t, priority), steps, x);
        MutexRunInv(Booted(t, priority), steps, x);
      }
    }
  }
}

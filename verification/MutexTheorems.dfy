/** Priority inheritance over whole runs: one mutex, fixed base priorities, no deletion and no
    suspension, and a mutex that is taken by a task nothing ready outranks. */
module MutexTheorems {
  import opened Basics
  import opened Rings
  import opened KernelModel
  import opened KernelSteps
  import opened KernelApi
  import opened KernelInvariant
  import opened KernelRuns
  import opened KernelTheorems
  import opened KernelTicks
  import opened Mutex
  import opened MutexRuns
  import I = Inheritance

  datatype XStep =
    | TickX
    | SwitchX
    | CreateX(t: Task, priority: nat)
    | DelayX(ticks: nat, indefinitely: bool)
    | BlockX(q: nat, ticks: nat)
    | WakeX(q: nat)
    | AbortX(t: Task)
    | TakeX
    | RequestX(ticks: nat)
    | ExpireX
    | SeeX
    | ReturnX
    | LeaveX
    | GiveX

  /** Who may do what. All but the first two and `CreateX`, `WakeX` and `AbortX` are steps of the running
      task; one that is inside `QueueSemaphoreTake` can only go on with that call. A holder does not
      ask for its own mutex again. */
  ghost predicate XEnabled(x: X, s: XStep) {
    && x.k.current in x.k.tcb && x.k.current in x.phase
    && match s
       case TickX => true
       case SwitchX => SomeReady(x.k)
       case CreateX(t, _) => t !in x.k.tcb
       case DelayX(ticks, _) => Runs(x.k) && 0 < ticks < M && x.phase[x.k.current].Idle?
       case BlockX(q, ticks) => Runs(x.k) && 0 < q && 0 < ticks < M && x.phase[x.k.current].Idle?
                                && x.k.tcb[x.k.current].eventIn.None? && !x.k.tcb[x.k.current].notify.Waiting?
       case WakeX(q) => 0 < q && Items(x.k, Event(q)) != []
       case AbortX(t) => t in x.k.tcb
       case TakeX => Runs(x.k) && x.holder.None? && !x.phase[x.k.current].Leaving? && NothingOutranks(x.k, x.k.current)
       case RequestX(ticks) => MayRequest(x, ticks) && !x.phase[x.k.current].Leaving? && !x.phase[x.k.current].Late?
       case ExpireX => Runs(x.k) && x.holder.Some? && x.phase[x.k.current].Trying?
       case SeeX => Runs(x.k) && x.holder.None? && x.phase[x.k.current].Trying?
       case ReturnX => Runs(x.k) && x.holder.Some? && x.phase[x.k.current].Late?
       case LeaveX => Runs(x.k) && x.phase[x.k.current].Leaving?
       case GiveX => Runs(x.k) && x.holder == Some(x.k.current)
  }

  ghost predicate NothingOutranks(k: K, t: Task)
    requires t in k.tcb
  {
    forall u :: u in k.tcb && IsReady(k, u) ==> k.tcb[u].prio <= k.tcb[t].prio
  }

  /** The outcome of a step. */
  ghost predicate XNext(x: X, s: XStep, x': X) {
    && XEnabled(x, s)
    && match s
       case TickX => x' == x.(k := Tick(x.k))
       case SwitchX => x' == x.(k := Switch(x.k))
       case CreateX(t, p) => x' == X(CreateTask(x.k, t, p), x.holder, x.phase[t := I.Idle])
       case DelayX(ticks, indefinitely) => x' == x.(k := DelayCurrent(x.k, ticks, indefinitely))
       case BlockX(q, ticks) => x' == x.(k := BlockOn(x.k, q, ticks))
       case WakeX(q) => x' == x.(k := WakeFrom(x.k, q))
       case AbortX(t) => x' == x.(k := AbortDelay(x.k, t))
       case TakeX => x' == TakeMutex(x)
       case RequestX(ticks) =>
         && x.holder.value in x.k.tcb && x.k.tcb[x.k.current].prio <= MAX_PRIORITIES
         && x' == RequestMutex(x, ticks)
       case ExpireX => x' == ExpireMutex(x)
       case SeeX => x' == SeeMutex(x)
       case ReturnX => x' == ReturnLate(x)
       case LeaveX =>
         && (x.holder.Some? ==> x.holder.value in x.k.tcb && x.k.tcb[x.holder.value].base <= MAX_PRIORITIES)
         && x' == LeaveMutex(x)
       case GiveX => x.k.tcb[x.k.current].base <= MAX_PRIORITIES && x' == GiveMutex(x)
  }

  lemma KernelStepX(x: X, s: XStep, x': X)
    requires XInv(x) && XNext(x, s, x')
    requires s.TickX? || s.SwitchX? || s.CreateX? || s.DelayX? || s.BlockX? || s.WakeX? || s.AbortX?
    ensures XInv(x')
  {
    match s
    case TickX => var k' := TickSound(x);
    case SwitchX => var k' := SwitchSound(x);
    case CreateX(t, p) => var k' := CreateSound(x, t, p);
    case DelayX(ticks, indefinitely) => var k' := DelaySound(x, ticks, indefinitely);
    case BlockX(q, ticks) => var k' := BlockSound(x, q, ticks);
    case WakeX(q) => var k' := WakeSound(x, q);
    case AbortX(t) => var k' := AbortSound(x, t);
  }

  lemma MutexStepX(x: X, s: XStep, x': X)
    requires XInv(x) && XNext(x, s, x')
    requires IsMutexStep(s)
    ensures XInv(x')
  {
    match s
    case TakeX => OutrankedView(x); var y := TakeSound(x);
    case RequestX(ticks) => var y := RequestSound(x, ticks);
    case ExpireX => var y := ExpireSound(x);
    case SeeX => var y := SeeSound(x);
    case ReturnX => var y := ReturnSound(x);
    case LeaveX => var y := LeaveSound(x);
    case GiveX => var y := GiveSound(x);
  }

  predicate IsMutexStep(s: XStep) {
    s.TakeX? || s.RequestX? || s.ExpireX? || s.SeeX? || s.ReturnX? || s.LeaveX? || s.GiveX?
  }

  lemma OutrankedView(x: X)
    requires x.k.current in x.k.tcb && NothingOutranks(x.k, x.k.current) && I.WellFormed(View(x))
    ensures I.Outranked(View(x), x.k.current)
  {
  }

  ghost predicate XRun(x: X, steps: seq<XStep>, x': X)
    decreases |steps|
  {
    if steps == [] then x' == x
    else exists y :: XNext(x, steps[0], y) && XRun(y, steps[1..], x')
  }

  /** Everything `XInv` says holds throughout every run; in particular the ready bitmap is exact. */
  lemma {:induction false} MutexRunInv(x: X, steps: seq<XStep>, x': X)
    requires XInv(x) && XRun(x, steps, x')
    ensures XInv(x') && Bitmap(x'.k)
    decreases |steps|
  {
    if steps != [] {
      var y :| XNext(x, steps[0], y) && XRun(y, steps[1..], x');
      if IsMutexStep(steps[0]) {
        MutexStepX(x, steps[0], y);
      } else {
        KernelStepX(x, steps[0], y);
      }
      MutexRunInv(y, steps[1..], x');
    }
  }

  /** The holder is never below its base priority, nor below a task that waits for the mutex. */
  lemma HolderRanks(x: X, steps: seq<XStep>, x': X)
    requires XInv(x) && XRun(x, steps, x') && x'.holder.Some?
    ensures x'.holder.value in x'.k.tcb
    ensures x'.k.tcb[x'.holder.value].base <= x'.k.tcb[x'.holder.value].prio
    ensures forall t :: t in Items(x'.k, WAITERS) ==>
                t in x'.k.tcb && x'.k.tcb[t].prio <= x'.k.tcb[x'.holder.value].prio
  {
    MutexRunInv(x, steps, x');
    var v := View(x');
    assert x'.holder.value in v.prio;
    forall t | t in Items(x'.k, WAITERS) ensures t in x'.k.tcb && x'.k.tcb[t].prio <= x'.k.tcb[x'.holder.value].prio {
      assert t in v.waiters && v.prio[t] <= v.prio[x'.holder.value];
    }
  }

  /** Nobody else ever runs above its base priority. */
  lemma OthersAtBase(x: X, steps: seq<XStep>, x': X, t: Task)
    requires XInv(x) && XRun(x, steps, x') && t in x'.k.tcb && x'.holder != Some(t)
    ensures x'.k.tcb[t].prio == x'.k.tcb[t].base
  {
    MutexRunInv(x, steps, x');
    assert View(x').prio[t] == View(x').base[t];
  }

  /** After a time-out that undoes an inheritance the holder has exactly its base priority or that of
      the highest remaining waiter, whichever is higher; and `PriorityDisinheritAfterTimeout` has not
      gone through the branch that resets the bit of the new priority. */
  lemma TimeoutPaysBack(x: X, steps: seq<XStep>, x1: X, x': X)
    requires x1.k.current in x1.phase && x1.phase[x1.k.current] == I.Leaving(true) && x1.holder.Some?
    requires XInv(x) && XRun(x, steps, x1) && XNext(x1, LeaveX, x')
    ensures x'.holder == x1.holder && AtWhatIsOwed(x'.k, x'.holder.value)
    ensures !ResetsNewBit(x1.k, x1.holder.value) && Bitmap(x'.k)
  {
    MutexRunInv(x, steps, x1);
    NeverAlone(x1);
    var y := LeaveSound(x1);
    HighestWaiterView(x');
    assert x'.holder.value in View(x').prio;
  }

  /** A task whose time is up can also find the mutex free, lose it to another task, and return without
      undoing anything. Then the holder keeps its priority, and rightly so: the task that returns does not
      rank above the holder's base, and what the holder runs at is what it is owed, or what some other
      task in the call has still to take back. */
  lemma LateReturnOwesNothing(x: X, steps: seq<XStep>, x1: X, x': X)
    requires XInv(x) && XRun(x, steps, x1) && XNext(x1, ReturnX, x')
    ensures x'.holder == x1.holder && x'.holder.Some? && x'.k == x1.k && x'.holder.value in x'.k.tcb
    ensures x'.k.tcb[x'.k.current].prio <= x'.k.tcb[x'.holder.value].base
    ensures AtWhatIsOwed(x'.k, x'.holder.value) || SomeoneStillOwes(x', x'.holder.value)
  {
    MutexRunInv(x, steps, x1);
    var y := ReturnSound(x1);
    var v, h := View(x'), x'.holder.value;
    HighestWaiterView(x');
    assert h in v.prio;
    if !I.Owed(v, h) {
      var u := StillOwing(v, h);
      assert InTheCall(x', u, h);
    }
  }

  lemma StillOwing(v: I.V, h: Task) returns (u: Task)
    requires I.Inv(v) && v.holder == Some(h) && !I.Owed(v, h)
    ensures I.Roused(v, u) && v.prio[u] == v.prio[h] && (v.phase[u].Trying? || v.phase[u].Leaving?) &&
            v.phase[u].didInherit
  {
    u :| I.Roused(v, u) && v.prio[u] == v.prio[h];
    assert v.waiters != [] ==> v.waiters[0] in v.waiters;
  }

  /** A task in the call that has lent its priority and is ready, at the holder's priority. */
  predicate InTheCall(x: X, u: Task, h: Task) {
    && u in x.k.tcb && h in x.k.tcb && u in x.phase && (x.phase[u].Trying? || x.phase[u].Leaving?) &&
       x.phase[u].didInherit
    && IsReady(x.k, u) && x.k.tcb[u].prio == x.k.tcb[h].prio
  }

  ghost predicate SomeoneStillOwes(x: X, h: Task) {
    exists u :: InTheCall(x, u, h)
  }

  predicate AtWhatIsOwed(k: K, h: Task) {
    h in k.tcb && k.tcb[h].prio == I.Max(k.tcb[h].base, HighestWaiter(k))
  }

  /** The call `PriorityDisinheritAfterTimeout` empties the ready list of the holder's old priority. */
  predicate ResetsNewBit(k: K, h: Task) {
    h in k.tcb && Lowers(k.tcb[h], HighestWaiter(k)) && Alone(k, h)
  }

  /** After a give the giver is back at its base priority, and the mutex is free for the highest of
      those who waited for it. */
  lemma GivePaysBack(x: X, steps: seq<XStep>, x1: X, x': X)
    requires XInv(x) && XRun(x, steps, x1) && XNext(x1, GiveX, x')
    ensures x1.k.current in x'.k.tcb && x'.k.tcb[x1.k.current].prio == x'.k.tcb[x1.k.current].base && x'.holder.None?
    ensures Items(x1.k, WAITERS) != [] ==> WokenHighest(x1.k, Items(x1.k, WAITERS)[0], x'.k)
  {
    MutexRunInv(x, steps, x1);
    var y := GiveSound(x1);
    if Items(x1.k, WAITERS) != [] {
      GiveWakes(x1, x');
    }
  }

  /** t is ready now, and nobody who waited ranks higher. */
  ghost predicate WokenHighest(k: K, t: Task, k': K) {
    && IsReady(k', t) && t !in Items(k', WAITERS)
    && forall u :: u in Items(k, WAITERS) ==> u in k.tcb && t in k.tcb && k.tcb[u].prio <= k.tcb[t].prio
  }

  lemma GiveWakes(x: X, x': X)
    requires XInv(x) && XInv(x') && Runs(x.k) && x.holder == Some(x.k.current) && Items(x.k, WAITERS) != []
    requires x.k.tcb[x.k.current].base <= MAX_PRIORITIES && x' == GiveMutex(x)
    ensures WokenHighest(x.k, Items(x.k, WAITERS)[0], x'.k)
  {
    GiveReadies(x, x');
    HeadIsHighest(View(x));
  }

  lemma GiveReadies(x: X, x': X)
    requires XInv(x) && Runs(x.k) && x.holder == Some(x.k.current) && Items(x.k, WAITERS) != []
    requires x.k.tcb[x.k.current].base <= MAX_PRIORITIES && x' == GiveMutex(x)
    ensures IsReady(x'.k, Items(x.k, WAITERS)[0]) && Items(x.k, WAITERS)[0] !in Items(x'.k, WAITERS)
  {
    var k1 := DisinheritOk(x);
    var t := Items(x.k, WAITERS)[0];
    assert Items(k1, WAITERS) == View(X(k1, None, x.phase)).waiters == View(x).waiters;
    HeadLinked(k1, WAITERS);
    WakeReadies(k1, t);
  }

  lemma WakeReadies(k: K, t: Task)
    requires Core(k) && Bitmap(k) && k.suspended == 0 && Items(k, WAITERS) != [] && t == Items(k, WAITERS)[0] &&
             t in k.tcb
    ensures IsReady(WakeFrom(k, 0), t) && t !in Items(WakeFrom(k, 0), WAITERS)
  {
    var k' := RouseOk(k, t, EventItem);
    RousedReadies(k, t, k');
  }

  lemma RousedReadies(k: K, t: Task, k': K)
    requires t in k.tcb && Roused(k, t, k') && Links(k')
    ensures IsReady(k', t) && t !in Items(k', WAITERS)
  {
    assert k'.tcb[t].Container(EventItem).None?;
  }

  lemma HeadIsHighest(v: I.V)
    requires I.WellFormed(v) && I.Queued(v) && v.waiters != []
    ensures forall u :: u in v.waiters ==> u in v.prio && v.waiters[0] in v.prio && v.prio[u] <= v.prio[v.waiters[0]]
  {
    assert v.waiters[0] in v.waiters;
    forall u | u in v.waiters ensures v.prio[u] <= v.prio[v.waiters[0]] {
      var i :| 0 <= i < |v.waiters| && v.waiters[i] == u;
    }
  }

  /** The runs may start from a kernel that has just booted, with the mutex free. */
  lemma BootXInv(t: Task, priority: nat)
    ensures XInv(X(Boot(t, priority), None, map[t := I.Idle]))
  {
    BootInv(t, priority);
    var x := X(Boot(t, priority), None, map[t := I.Idle]);
    assert x.k.tcb == map[t := NewTcb(priority).(stateIn := Some(Ready(NewTcb(priority).prio)))];
    assert Items(x.k, WAITERS) == [];
    AloneIsSound(x, t, NewTcb(priority).(stateIn := Some(Ready(NewTcb(priority).prio))));
  }

  lemma AloneIsSound(x: X, t: Task, tcb: Tcb)
    requires x.k.tcb == map[t := tcb] && Items(x.k, WAITERS) == [] && x.holder.None? && x.phase == map[t := I.Idle]
    requires KeyedTask(tcb, false) && tcb.prio == tcb.base
    ensures Keyed(x) && I.Inv(View(x))
  {
  }
}

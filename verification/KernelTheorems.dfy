/** The kernel as a transition system, and what holds of all its runs. */
module KernelTheorems {
  import opened Basics
  import opened Rings
  import opened KernelModel
  import opened KernelSteps
  import opened KernelApi
  import opened KernelInvariant
  import opened KernelRuns

  /** One atomic step of a task, of an interrupt handler, or of the context switch. */
  datatype Step =
    | Create(t: Task, priority: nat)
    | Delete(t: Task)
    | SetTaskPriority(t: Task, priority: nat)
    | Suspend(t: Task)
    | Resume(t: Task, isr: bool)
    | Abort(t: Task)
    | Delay(ticks: nat, indefinitely: bool)
    | Block(q: nat, ticks: nat)
    | Wake(q: nat)
    | NotifyOne(t: Task, isr: bool)
    | Wait(begin: bool)
    | SuspendScheduler
    | ResumeScheduler
    | TickInterrupt
    | CatchUp(ticks: nat)
    | SwitchContext
    | CleanUpOne

  /** What the source asks of its callers. A step that blocks is taken by the running task. */
  ghost predicate Enabled(k: K, s: Step) {
    match s
    case Create(t, _) => t !in k.tcb
    case Delete(t) => t in k.tcb && k.tcb[t].stateIn != Some(WaitingTermination)
    case SetTaskPriority(t, _) => t in k.tcb
    case Suspend(t) => t in k.tcb && k.tcb[t].stateIn != Some(WaitingTermination)
    case Resume(t, _) => t in k.tcb
    case Abort(t) => t in k.tcb
    case Delay(ticks, _) => Runs(k) && 0 < ticks < M
    case Block(_, ticks) => Runs(k) && 0 < ticks < M && k.tcb[k.current].eventIn.None? &&
        !k.tcb[k.current].notify.Waiting?
    case Wake(q) => Items(k, Event(q)) != []
    case NotifyOne(t, _) => t in k.tcb && k.tcb[t].stateIn != Some(WaitingTermination)
    case Wait(begin) => k.current in k.tcb && (begin ==> k.tcb[k.current].eventIn.None?)
    case SuspendScheduler => true
    case ResumeScheduler => k.suspended > 0
    case TickInterrupt => true
    case CatchUp(ticks) => ticks < M
    case SwitchContext => k.suspended == 0 ==> SomeReady(k)
    case CleanUpOne => Runs(k) && k.deletedWaiting > 0
  }

  ghost function Do(k: K, s: Step): K
    requires Enabled(k, s)
  {
    match s
    case Create(t, p) => CreateTask(k, t, p)
    case Delete(t) => DeleteTask(k, t)
    case SetTaskPriority(t, p) => SetPriority(k, t, p)
    case Suspend(t) => SuspendTask(k, t)
    case Resume(t, isr) => if isr then ResumeFromISR(k, t) else ResumeTask(k, t)
    case Abort(t) => AbortDelay(k, t)
    case Delay(ticks, indefinitely) => DelayCurrent(k, ticks, indefinitely)
    case Block(q, ticks) => BlockOn(k, q, ticks)
    case Wake(q) => WakeFrom(k, q)
    case NotifyOne(t, isr) => if isr then NotifyFromISR(k, t) else NotifyTask(k, t)
    case Wait(begin) => if begin then WaitBegin(k) else WaitEnd(k)
    case SuspendScheduler => k.(suspended := k.suspended + 1)
    case ResumeScheduler => ResumeAll(k)
    case TickInterrupt => Tick(k)
    case CatchUp(ticks) => k.(pended := Wrap(k.pended + ticks))
    case SwitchContext => Switch(k)
    case CleanUpOne => CleanUp(k)
  }

  /** The tasks a step is about. */
  ghost predicate Concerns(k: K, s: Step, t: Task) {
    match s
    case Create(u, _) => t == u
    case Delete(u) => t == u
    case SetTaskPriority(u, _) => t == u
    case Suspend(u) => t == u
    case Resume(u, _) => t == u
    case Abort(u) => t == u
    case Delay(_, _) => t == k.current
    case Block(_, _) => t == k.current
    case Wake(q) => Items(k, Event(q)) != [] && t == Items(k, Event(q))[0]
    case NotifyOne(u, _) => t == u
    case Wait(_) => t == k.current
    case ResumeScheduler => t in Items(k, PendingReady)
    case CleanUpOne => Items(k, WaitingTermination) != [] && t == Items(k, WaitingTermination)[0]
    case _ => false
  }

  /** What a step does to a task it is not about: nothing, but for the passing of time. */
  ghost predicate Passes(k: K, t: Task, k': K) {
    && t in k.tcb && t in k'.tcb
    && k'.tcb[t] == TickedTcb(k, t, k'.clock)
    && (t in k.due ==> t in k'.due && k'.due[t] == k.due[t])
  }

  /** How a step moves the clock and the pended ticks. */
  predicate Clocked(k: K, s: Step, k': K) {
    match s
    case TickInterrupt =>
      if k.suspended == 0 then k'.clock == k.clock + 1 && k'.pended == k.pended
      else k'.clock == k.clock && k'.pended == Wrap(k.pended + 1)
    case CatchUp(n) => k'.clock == k.clock && k'.pended == Wrap(k.pended + n)
    case ResumeScheduler =>
      if k.suspended == 1 then k'.clock == k.clock + k.pended && k'.pended == 0
      else k'.clock == k.clock && k'.pended == k.pended
    case _ => k'.clock == k.clock && k'.pended == k.pended
  }

  ghost predicate Effect(k: K, s: Step, k': K) {
    && Clocked(k, s, k')
    && {k'.delayed, k'.overflow} == {k.delayed, k.overflow}
    && k.clock <= k'.clock
    && forall t :: t in k.tcb && !Concerns(k, s, t) ==> Passes(k, t, k')
  }

  lemma ChangedEffect(k: K, s: Step, t: Task, k': K)
    requires ChangedAt(k, t, k') && Concerns(k, s, t) && IsLocal(s)
    ensures Effect(k, s, k')
  {
  }

  predicate IsLocal(s: Step) {
    !(s.Create? || s.Delete? || s.SuspendScheduler? || s.ResumeScheduler? || s.TickInterrupt? || s.CatchUp? ||
        s.SwitchContext? || s.CleanUpOne?)
  }

  /** The steps that change one task only. */
  lemma LocalStep(k: K, s: Step) returns (k': K, t: Task)
    requires Inv(k) && Enabled(k, s) && IsLocal(s)
    ensures k' == Do(k, s) && Inv(k')
    ensures ChangedAt(k, t, k') && Concerns(k, s, t)
  {
    hide Inv, Changed;
    if s.Delay? || s.Block? || s.Wake? || s.Wait? {
      k', t := WaitingStep(k, s);
    } else if s.Abort? || s.NotifyOne? || s.Resume? {
      k', t := ReadyingStep(k, s);
    } else {
      match s
      case SetTaskPriority(u, p) => t := u; k' := SetPriorityInv(k, u, p);
      case Suspend(u) => t := u; k' := SuspendTaskInv(k, u);
    }
  }

  lemma ReadyingStep(k: K, s: Step) returns (k': K, t: Task)
    requires Inv(k) && Enabled(k, s) && (s.Abort? || s.NotifyOne? || s.Resume?)
    ensures k' == Do(k, s) && Inv(k')
    ensures ChangedAt(k, t, k') && Concerns(k, s, t)
  {
    hide Inv, Changed;
    match s
    case Abort(u) => t := u; k' := AbortDelayInv(k, u);
    case NotifyOne(u, isr) => t := u; k' := NotifyInv(k, u, isr);
    case Resume(u, isr) => t := u; k' := ResumeInv(k, u, isr);
  }

  lemma WaitingStep(k: K, s: Step) returns (k': K, t: Task)
    requires Inv(k) && Enabled(k, s) && (s.Delay? || s.Block? || s.Wake? || s.Wait?)
    ensures k' == Do(k, s) && Inv(k')
    ensures ChangedAt(k, t, k') && Concerns(k, s, t)
  {
    hide Inv, Changed, Asleep;
    match s
    case Delay(ticks, indefinitely) => t := k.current; k' := DelayInv(k, ticks, indefinitely);
    case Block(q, ticks) => t := k.current; k' := BlockOnInv(k, q, ticks);
    case Wake(q) => t := Head(k, Event(q)); k' := WakeFromInv(k, q);
    case Wait(begin) => t := k.current; k' := WaitInv(k, begin);
  }

  lemma TickStep(k: K) returns (k': K)
    requires Inv(k)
    ensures k' == Tick(k) && Inv(k') && Effect(k, TickInterrupt, k')
  {
    if k.suspended == 0 {
      k' := ProcessTickInv(k);
      TickedEffect(k, k');
    } else {
      k' := Resuspended(k, k.suspended, Wrap(k.pended + 1));
      IdleEffect(k, TickInterrupt, k');
    }
  }

  lemma TickedEffect(k: K, k': K)
    requires k.suspended == 0 && TickedBetween(k, 1, k')
    ensures Effect(k, TickInterrupt, k')
  {
  }

  lemma IdleEffect(k: K, s: Step, k': K)
    requires k'.tcb == k.tcb && k'.due == k.due && k'.delayed == k.delayed && k'.overflow == k.overflow &&
             k'.clock == k.clock
    requires Clocked(k, s, k')
    ensures Effect(k, s, k')
  {
  }

  lemma CreateStep(k: K, s: Step) returns (k': K)
    requires Inv(k) && Enabled(k, s) && s.Create?
    ensures k' == Do(k, s) && Inv(k') && Effect(k, s, k')
  {
    k' := CreateTaskInv(k, s.t, s.priority);
    CreatedEffect(k, s, k');
  }

  lemma CreatedEffect(k: K, s: Step, k': K)
    requires s.Create? && Created(k, s.t, k')
    ensures Effect(k, s, k')
  {
  }

  lemma DeleteStep(k: K, s: Step) returns (k': K)
    requires Inv(k) && Enabled(k, s) && s.Delete?
    ensures k' == Do(k, s) && Inv(k') && Effect(k, s, k')
  {
    k' := DeleteTaskInv(k, s.t);
    DeletedEffect(k, s, k');
  }

  lemma DeletedEffect(k: K, s: Step, k': K)
    requires s.Delete? && s.t in k.tcb && Deleted(k, s.t, k')
    ensures Effect(k, s, k')
  {
  }

  lemma CleanUpStep(k: K) returns (k': K)
    requires Inv(k) && Enabled(k, CleanUpOne)
    ensures k' == CleanUp(k) && Inv(k') && Effect(k, CleanUpOne, k')
  {
    k' := CleanUpInv(k);
    CleanedUpEffect(k, k');
  }

  lemma CleanedUpEffect(k: K, k': K)
    requires Items(k, WaitingTermination) != [] && CleanedUp(k, Head(k, WaitingTermination), k')
    ensures Effect(k, CleanUpOne, k')
  {
  }

  lemma ResumeStep(k: K) returns (k': K)
    requires Inv(k) && Enabled(k, ResumeScheduler)
    ensures k' == ResumeAll(k) && Inv(k') && Effect(k, ResumeScheduler, k')
  {
    k' := ResumeAllInv(k);
    ResumedEffect(k, k');
  }

  lemma ResumedEffect(k: K, k': K)
    requires k.suspended > 0 && if k.suspended > 1 then k' == k.(suspended := k.suspended - 1) else Resumed(k, k')
    ensures Effect(k, ResumeScheduler, k')
  {
  }

  lemma SwitchStep(k: K) returns (k': K)
    requires Inv(k) && Enabled(k, SwitchContext)
    ensures k' == Switch(k) && Inv(k') && Effect(k, SwitchContext, k')
  {
    k' := SwitchInv(k);
    IdleEffect(k, SwitchContext, k');
  }

  lemma SuspendStep(k: K) returns (k': K)
    requires Inv(k)
    ensures k' == Do(k, SuspendScheduler) && Inv(k') && Effect(k, SuspendScheduler, k')
  {
    k' := Resuspended(k, k.suspended + 1, k.pended);
    IdleEffect(k, SuspendScheduler, k');
  }

  lemma CatchUpStep(k: K, ticks: nat) returns (k': K)
    requires Inv(k) && ticks < M
    ensures k' == Do(k, CatchUp(ticks)) && Inv(k') && Effect(k, CatchUp(ticks), k')
  {
    k' := Resuspended(k, k.suspended, Wrap(k.pended + ticks));
    IdleEffect(k, CatchUp(ticks), k');
  }

  /** Every step keeps the invariant and leaves alone the tasks it is not about. */
  lemma StepInv(k: K, s: Step) returns (k': K)
    requires Inv(k) && Enabled(k, s)
    ensures k' == Do(k, s)
    ensures Inv(k') && Effect(k, s, k')
  {
    hide Inv, Steady, Changed, Links;
    if IsLocal(s) {
      var t;
      k', t := LocalStep(k, s);
      ChangedEffect(k, s, t, k');
    } else if s.Create? {
      k' := CreateStep(k, s);
    } else if s.Delete? {
      k' := DeleteStep(k, s);
    } else if s.CleanUpOne? {
      k' := CleanUpStep(k);
    } else if s.ResumeScheduler? {
      k' := ResumeStep(k);
    } else if s.SwitchContext? {
      k' := SwitchStep(k);
    } else if s.TickInterrupt? {
      k' := TickStep(k);
    } else if s.SuspendScheduler? {
      k' := SuspendStep(k);
    } else {
      k' := CatchUpStep(k, s.ticks);
    }
  }

  // ----- runs

  /** A run: steps taken one after the other from k, each enabled when it is taken. */
  ghost predicate Run(k: K, steps: seq<Step>, k': K)
    decreases |steps|
  {
    if steps == [] then k' == k
    else Enabled(k, steps[0]) && Run(Do(k, steps[0]), steps[1..], k')
  }

  /** The invariant holds throughout every run. In particular each task's state item is on exactly
      one list, and the bitmap, the counts and the delay lists are as `Inv` says. */
  lemma {:induction false} RunInv(k: K, steps: seq<Step>, k': K)
    requires Inv(k) && Run(k, steps, k')
    ensures Inv(k')
    decreases |steps|
  {
    hide Inv;
    if steps != [] {
      var k1 := StepInv(k, steps[0]);
      RunInv(k1, steps[1..], k');
    }
  }

  /** Spelled out: the state lists partition the tasks. */
  lemma ExactlyOneList(k: K, t: Task)
    requires Inv(k) && t in k.tcb
    ensures exists id :: KindOf(id).State? && t in Items(k, id)
    ensures forall id, id' :: KindOf(id).State? && KindOf(id').State? && t in Items(k, id) && t in Items(k, id') ==>
                id == id'
    ensures forall id, i, j :: 0 <= i < |Items(k, id)| && 0 <= j < |Items(k, id)| &&
                               Items(k, id)[i] == t == Items(k, id)[j] ==>
                i == j
  {
    assert Settled(k.tcb[t]);
    DelayedMembers(k, t);
    assert Linked(k, t, k.tcb[t].Container(State), State);
    forall id ensures NoDup(Items(k, id)) {
    }
  }

  /** No step of the run is about t. */
  ghost predicate Undisturbed(k: K, steps: seq<Step>, t: Task)
    decreases |steps|
  {
    steps == [] || (!Concerns(k, steps[0], t) && Enabled(k, steps[0]) && Undisturbed(Do(k, steps[0]), steps[1..], t))
  }

  lemma PassesTrans(k: K, t: Task, k1: K, k2: K)
    requires Inv(k) && Passes(k, t, k1) && Passes(k1, t, k2) && k.clock <= k1.clock <= k2.clock
    requires {k1.delayed, k1.overflow} == {k.delayed, k.overflow}
    ensures Passes(k, t, k2)
  {
    assert WakeOk(k, t);
    assert k.delayed in {k1.delayed, k1.overflow} && k.overflow in {k1.delayed, k1.overflow};
    assert k1.delayed in {k.delayed, k.overflow} && k1.overflow in {k.delayed, k.overflow};
  }

  /** Over any run that is not about it, a task changes only by its wake time coming. */
  lemma {:induction false} RunPasses(k: K, steps: seq<Step>, k': K, t: Task)
    requires Inv(k) && Run(k, steps, k') && t in k.tcb && Undisturbed(k, steps, t)
    ensures Passes(k, t, k') && k.clock <= k'.clock
    decreases |steps|
  {
    hide Inv;
    if steps != [] {
      var k1 := StepInv(k, steps[0]);
      RunPasses(k1, steps[1..], k', t);
      PassesTrans(k, t, k1, k');
    }
  }

  /** Across any number of wraps of the tick count, a task that delays for n ticks and is not woken
      otherwise is blocked while fewer than n ticks have been processed, and ready from the n-th on. */
  lemma DelayEndsAtItsTick(k: K, n: nat, k1: K, steps: seq<Step>, k': K)
    requires Inv(k) && Runs(k) && 0 < n < M && k1 == DelayCurrent(k, n, false)
    requires Run(k1, steps, k') && Undisturbed(k1, steps, k.current)
    ensures k.current in k'.tcb
    ensures k'.clock < k.clock + n ==> Blocked(k', k.current)
    ensures k'.clock >= k.clock + n ==> IsReady(k', k.current)
  {
    var parked := DelayInv(k, n, false);
    BlockedUntil(k1, k.current, steps, k');
  }

  lemma BlockedUntil(k: K, t: Task, steps: seq<Step>, k': K)
    requires Inv(k) && Blocked(k, t) && Run(k, steps, k') && Undisturbed(k, steps, t)
    ensures t in k.due && t in k'.tcb
    ensures k'.clock < k.due[t] ==> Blocked(k', t)
    ensures k'.clock >= k.due[t] ==> IsReady(k', t)
  {
    RunInv(k, steps, k');
    RunPasses(k, steps, k', t);
    AwakeOrNot(k, t, k');
  }

  lemma AwakeOrNot(k: K, t: Task, k': K)
    requires Inv(k) && Inv(k') && Blocked(k, t) && Passes(k, t, k')
    requires {k'.delayed, k'.overflow} == {k.delayed, k.overflow}
    ensures t in k.due
    ensures k'.clock < k.due[t] ==> Blocked(k', t)
    ensures k'.clock >= k.due[t] ==> IsReady(k', t)
  {
    assert WakeOk(k, t);
    assert k.tcb[t].stateIn.value in {k'.delayed, k'.overflow};
  }

  /** The running task has gone to sleep: for a time, on an event list, or to wait for a notification. */
  ghost predicate WentToSleep(k: K, ticks: nat, k1: K)
    requires k.current in k.tcb
  {
    && k.tcb[k.current].eventIn.None?
    && (|| k1 == DelayCurrent(k, ticks, false)
        || (!k.tcb[k.current].notify.Waiting? && exists q :: k1 == BlockOn(k, q, ticks))
        || (!k.tcb[k.current].notify.Received? && k1 == DelayCurrent(WaitBegin(k), ticks, true)))
  }

  /** However it went to sleep, and whatever else has happened since: `AbortDelay` finds the task blocked
      unless its time has come, and then it is ready, as it would be otherwise. */
  lemma AbortWakes(k: K, ticks: nat, k1: K, steps: seq<Step>, k2: K)
    requires Inv(k) && Runs(k) && 0 < ticks < M && WentToSleep(k, ticks, k1)
    requires Run(k1, steps, k2) && Undisturbed(k1, steps, k.current) && k2.current != k.current
    ensures k.current in k2.tcb && (IsBlocked(k2, k.current) || IsReady(k2, k.current))
    ensures IsReady(AbortDelay(k2, k.current), k.current)
  {
    hide Inv, Changed, DelayCurrent, BlockOn, WaitBegin, AbortDelay, Undisturbed, Run;
    SleepsSoundly(k, ticks, k1);
    RunInv(k1, steps, k2);
    RunPasses(k1, steps, k2, k.current);
    StillAsleep(k1, k2, k.current);
    var k3 := AbortDelayInv(k2, k.current);
    NowReady(k2, k.current, k3);
  }

  /** Asleep, once another task runs. */
  ghost predicate Dozes(k: K, t: Task) {
    && Inv(k) && t in k.tcb && k.tcb[t].eventIn != Some(PendingReady)
    && (Blocked(k, t) || (k.tcb[t].stateIn == Some(SuspendedTasks) && Waits(k.tcb[t])))
  }

  lemma SleepsSoundly(k: K, ticks: nat, k1: K)
    requires Inv(k) && Runs(k) && 0 < ticks < M && WentToSleep(k, ticks, k1)
    ensures Dozes(k1, k.current)
  {
    hide Inv, DelayCurrent, BlockOn;
    if k1 == DelayCurrent(k, ticks, false) {
      var k' := DelayInv(k, ticks, false);
    } else if !k.tcb[k.current].notify.Waiting? && exists q :: k1 == BlockOn(k, q, ticks) {
      var q :| k1 == BlockOn(k, q, ticks);
      var k' := BlockOnInv(k, q, ticks);
    } else {
      var kw := WaitInv(k, true);
      NotifyDoze(kw, ticks, k1);
    }
  }

  lemma NotifyDoze(k: K, ticks: nat, k1: K)
    requires Inv(k) && Runs(k) && 0 < ticks < M && k.tcb[k.current].notify.Waiting? &&
             k1 == DelayCurrent(k, ticks, true)
    ensures Dozes(k1, k.current)
  {
    assert PriorityOk(k.tcb[k.current]);
    var k' := DelayCurrentOk(k, ticks, true);
    hide Core, Bitmap, NoneOverdue, DelayCurrent;
    var k'' := DelayInv(k, ticks, true);
  }

  lemma StillAsleep(k1: K, k2: K, t: Task)
    requires Dozes(k1, t) && Inv(k2) && Passes(k1, t, k2) && k2.current != t
    ensures IsAsleep(k2, t) || IsReady(k2, t)
  {
    assert k1.delayed in {k2.delayed, k2.overflow} && k1.overflow in {k2.delayed, k2.overflow};
  }

  lemma NowReady(k: K, t: Task, k': K)
    requires t in k.tcb && (IsAsleep(k, t) || IsReady(k, t))
    requires Changed(k, t, if IsAsleep(k, t) then AbortedTcb(k.tcb[t]) else k.tcb[t], k')
    ensures IsReady(k', t)
  {
  }

  // ----- conservation of ticks

  function TicksOf(s: Step): nat {
    match s
    case TickInterrupt => 1
    case CatchUp(n) => n
    case _ => 0
  }

  /** The tick interrupts and catch-up ticks of a run. */
  function TicksGiven(steps: seq<Step>): nat {
    if steps == [] then 0 else TicksOf(steps[0]) + TicksGiven(steps[1..])
  }

  function Epochs32(q: int): int {
    q * M
  }

  /** Equal modulo 2^32. */
  ghost predicate Congruent(a: int, b: int) {
    exists q :: a - b == Epochs32(q)
  }

  lemma CongruentSum(a: int, b: int, c: int, g: int, h: int)
    requires Congruent(b, a + g) && Congruent(c, b + h)
    ensures Congruent(c, a + (g + h))
  {
    var p :| b - (a + g) == Epochs32(p);
    var q :| c - (b + h) == Epochs32(q);
    assert c - (a + (g + h)) == Epochs32(p + q);
  }

  lemma WrapCongruent(clock: int, pended: nat, n: nat)
    ensures Congruent(clock + Wrap(pended + n), clock + pended + n)
  {
    assert clock + Wrap(pended + n) - (clock + pended + n) == Epochs32(-((pended + n) / M));
  }

  lemma ClockedGain(k: K, s: Step, k': K)
    requires Clocked(k, s, k') && (s.ResumeScheduler? ==> k.suspended > 0)
    ensures Given(k, TicksOf(s), k')
  {
    assert 0 == Epochs32(0);
    match s
    case TickInterrupt => WrapCongruent(k.clock, k.pended, 1);
    case CatchUp(n) => WrapCongruent(k.clock, k.pended, n);
    case _ =>
  }

  /** The ticks a stretch of execution has been given, modulo 2^32, on the true clock. */
  ghost predicate Given(k: K, n: nat, k': K) {
    Congruent(k'.clock + k'.pended, k.clock + k.pended + n)
  }

  lemma GivenTrans(k: K, m: nat, k1: K, n: nat, k': K)
    requires Given(k, m, k1) && Given(k1, n, k')
    ensures Given(k, m + n, k')
  {
    CongruentSum(k.clock + k.pended, k1.clock + k1.pended, k'.clock + k'.pended, m, n);
  }

  lemma {:induction false} ClockConserved(k: K, steps: seq<Step>, k': K)
    requires Inv(k) && Run(k, steps, k')
    ensures Given(k, TicksGiven(steps), k')
    decreases |steps|
  {
    hide Inv, Do;
    if steps == [] {
      assert 0 == Epochs32(0);
    } else {
      var k1 := StepInv(k, steps[0]);
      ClockConserved(k1, steps[1..], k');
      ClockedGain(k, steps[0], k1);
      GivenTrans(k, TicksOf(steps[0]), k1, TicksGiven(steps[1..]), k');
    }
  }

  lemma GivenOnTick(k: K, n: nat, k': K)
    requires Given(k, n, k') && k.clock == k.nOverflows * M + k.tick && k'.clock == k'.nOverflows * M + k'.tick
    ensures Congruent(k'.tick + k'.pended, k.tick + k.pended + n)
  {
    var q :| k'.clock + k'.pended - (k.clock + k.pended + n) == Epochs32(q);
    assert k'.tick + k'.pended - (k.tick + k.pended + n) == Epochs32(q - k'.nOverflows + k.nOverflows);
  }

  /** No tick is lost or counted twice while the scheduler is suspended: modulo 2^32, the tick count
      plus the pended ticks grow by exactly the ticks given. */
  lemma TicksConserved(k: K, steps: seq<Step>, k': K)
    requires Inv(k) && Run(k, steps, k')
    ensures Congruent(k'.tick + k'.pended, k.tick + k.pended + TicksGiven(steps))
  {
    ClockConserved(k, steps, k');
    RunInv(k, steps, k');
    GivenOnTick(k, TicksGiven(steps), k');
  }
}

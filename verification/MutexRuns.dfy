/** Runs of the mutex: every kernel operation seen as a step of `Inheritance`, and the consequences. */
module MutexRuns {
  import opened Basics
  import opened Rings
  import opened KernelModel
  import opened KernelSteps
  import opened KernelApi
  import opened KernelInvariant
  import opened KernelRuns
  import opened KernelTheorems
  import opened Mutex
  import I = Inheritance

  /** The priorities, the ready tasks and the queue of takers. */
  ghost function View(x: X): I.V {
    I.V(Prios(x.k), Bases(x.k), x.phase, ReadyTasks(x.k), Items(x.k, WAITERS), x.holder)
  }

  ghost function Prios(k: K): map<Task, nat> {
    map t | t in k.tcb :: k.tcb[t].prio
  }

  ghost function Bases(k: K): map<Task, nat> {
    map t | t in k.tcb :: k.tcb[t].base
  }

  ghost function ReadyTasks(k: K): set<Task> {
    set t | t in k.tcb && IsReady(k, t)
  }

  /** Event list items are keyed by priority, and only the holder holds the mutex. */
  ghost predicate Keyed(x: X) {
    forall t :: t in x.k.tcb ==> KeyedTask(x.k.tcb[t], x.holder == Some(t))
  }

  predicate KeyedTask(tcb: Tcb, holds: bool) {
    tcb.prio <= MAX_PRIORITIES && tcb.eventValue == MAX_PRIORITIES - tcb.prio &&
        tcb.mutexesHeld == if holds then 1 else 0
  }

  ghost predicate Sound(x: X) {
    Core(x.k) && Bitmap(x.k) && Keyed(x) && I.Inv(View(x))
  }

  ghost predicate XInv(x: X) {
    Inv(x.k) && x.k.suspended == 0 && Sound(x)
  }

  // ----- the kernel's operations as steps of the abstract protocol

  lemma ViewRoused(x: X, t: Task, k': K)
    requires Links(x.k) && t in x.k.tcb && Roused(x.k, t, k')
    ensures View(x.(k := k')) == I.Rouse(View(x), t)
  {
    var v, v' := View(x), View(x.(k := k'));
    assert v'.prio == v.prio && v'.base == v.base;
    assert v'.ready == v.ready + {t};
    assert Linked(x.k, t, x.k.tcb[t].Container(EventItem), EventItem);
  }

  lemma RousedKeyed(x: X, t: Task, k': K)
    requires Keyed(x) && t in x.k.tcb && Roused(x.k, t, k')
    ensures Keyed(x.(k := k'))
  {
  }

  lemma RouseSound(x: X, t: Task, first: Kind) returns (k': K)
    requires Sound(x) && t in x.k.tcb
    ensures k' == Rouse(x.k, t, first)
    ensures Sound(x.(k := k'))
  {
    k' := RouseOk(x.k, t, first);
    ViewRoused(x, t, k');
    I.RouseInv(View(x), t);
    RousedKeyed(x, t, k');
  }

  /** A change that the protocol does not look at. */
  lemma ViewSame(x: X, k': K)
    requires k'.tcb.Keys == x.k.tcb.Keys && Items(k', WAITERS) == Items(x.k, WAITERS)
    requires forall t :: t in x.k.tcb ==>
               && k'.tcb[t].prio == x.k.tcb[t].prio && k'.tcb[t].base == x.k.tcb[t].base
               && (IsReady(k', t) <==> IsReady(x.k, t))
    ensures View(x.(k := k')) == View(x)
  {
    var v, v' := View(x), View(x.(k := k'));
    assert v'.prio == v.prio && v'.base == v.base && v'.ready == v.ready;
  }

  lemma SameSound(x: X, k': K)
    requires Sound(x) && Core(k') && Bitmap(k')
    requires k'.tcb.Keys == x.k.tcb.Keys && Items(k', WAITERS) == Items(x.k, WAITERS)
    requires forall t :: t in x.k.tcb ==> k'.tcb[t] == x.k.tcb[t].(delayAborted := k'.tcb[t].delayAborted)
    ensures Sound(x.(k := k'))
  {
    ViewSame(x, k');
    forall t | t in k'.tcb ensures KeyedTask(k'.tcb[t], x.holder == Some(t)) {
      assert KeyedTask(x.k.tcb[t], x.holder == Some(t));
    }
  }

  /** Waking every task that is due, one after the other. */
  lemma {:induction false} WakeDueSound(x: X, ts: seq<Task>)
    requires Sound(x) && Scannable(x.k, ts)
    ensures Sound(x.(k := WakeDue(x.k, ts)))
    decreases |ts|
  {
    if ts == [] || x.k.tick < x.k.tcb[ts[0]].wake {
      var k' := WakeDue(x.k, ts);
      ScanStops(x.k, ts, k');
      SameSound(x, k');
    } else {
      var k1 := ScanNext(x.k, ts);
      var k2 := RouseSound(x, ts[0], State);
      WakeDueSound(x.(k := k1), ts[1..]);
    }
  }

  lemma TickSound(x: X) returns (k': K)
    requires XInv(x)
    ensures k' == Tick(x.k)
    ensures XInv(x.(k := k'))
  {
    ProcessSound(x);
    k' := TickAlone(x.k);
  }

  lemma TickAlone(k: K) returns (k': K)
    requires Inv(k) && k.suspended == 0
    ensures k' == ProcessTick(k) && Inv(k') && k'.suspended == 0
  {
    k' := ProcessTickInv(k);
  }

  lemma ProcessSound(x: X)
    requires Sound(x) && NoneOverdue(x.k)
    ensures Sound(x.(k := ProcessTick(x.k)))
  {
    hide Keyed, View, Bitmap;
    var k1 := AdvanceOk(x.k);
    SameSound(x, k1);
    if k1.tick >= k1.nextUnblock {
      WakeDueSound(x.(k := k1), Items(k1, k1.delayed));
    }
  }

  lemma ViewParked(x: X, ticks: nat, indefinitely: bool, k': K)
    requires Links(x.k) && Runs(x.k) && Parked(x.k, ticks, indefinitely, k') && IsDelayList(k'.delayed) &&
             IsDelayList(k'.overflow)
    ensures View(x.(k := k')) == I.Sleep(View(x), x.k.current)
  {
    var v, v' := View(x), View(x.(k := k'));
    assert v'.prio == v.prio && v'.base == v.base;
    assert v'.ready == v.ready - {x.k.current};
    assert ListOf(k', WAITERS) == ListOf(x.k, WAITERS);
  }

  lemma DelaySound(x: X, ticks: nat, indefinitely: bool) returns (k': K)
    requires XInv(x) && Runs(x.k) && 0 < ticks < M && x.phase[x.k.current].Idle?
    ensures k' == DelayCurrent(x.k, ticks, indefinitely)
    ensures XInv(x.(k := k'))
  {
    k' := DelayCurrentOk(x.k, ticks, indefinitely);
    var k1 := DelayInv(x.k, ticks, indefinitely);
    ViewParked(x, ticks, indefinitely, k');
    I.SleepInv(View(x), x.k.current);
    ParkedKeyed(x, ticks, indefinitely, k');
  }

  lemma ParkedKeyed(x: X, ticks: nat, indefinitely: bool, k': K)
    requires Keyed(x) && x.k.current in x.k.tcb && Parked(x.k, ticks, indefinitely, k')
    ensures Keyed(x.(k := k'))
  {
    forall t | t in k'.tcb ensures KeyedTask(k'.tcb[t], x.holder == Some(t)) {
      assert KeyedTask(x.k.tcb[t], x.holder == Some(t));
    }
  }

  lemma AbortSound(x: X, t: Task) returns (k': K)
    requires XInv(x) && t in x.k.tcb
    ensures k' == AbortDelay(x.k, t)
    ensures XInv(x.(k := k'))
  {
    k' := AbortDelayInv(x.k, t);
    AbortKeeps(x, t);
  }

  lemma AbortKeeps(x: X, t: Task)
    requires Sound(x) && NoneOverdue(x.k) && t in x.k.tcb
    ensures Sound(x.(k := AbortDelay(x.k, t)))
  {
    if IsBlocked(x.k, t) {
      var aborted := x.k.tcb[t].delayAborted || x.k.tcb[t].eventIn.Some?;
      var k1 := LabelSound(x, t, aborted);
      var k2 := RouseSound(x.(k := k1), t, State);
    }
  }

  lemma LabelSound(x: X, t: Task, aborted: bool) returns (k1: K)
    requires Sound(x) && NoneOverdue(x.k) && t in x.k.tcb
    ensures k1 == Relabel(x.k, t, x.k.tcb[t].(delayAborted := aborted)) && Sound(x.(k := k1))
  {
    assert PriorityOk(x.k.tcb[t]);
    k1 := Relabelled(x.k, t, x.k.tcb[t].(delayAborted := aborted));
    LabelView(x, t, aborted);
  }

  lemma LabelView(x: X, t: Task, aborted: bool)
    requires Keyed(x) && t in x.k.tcb
    ensures var x1 := x.(k := Relabel(x.k, t, x.k.tcb[t].(delayAborted := aborted))); Keyed(x1) && View(x1) == View(x)
  {
    var k1 := Relabel(x.k, t, x.k.tcb[t].(delayAborted := aborted));
    assert Items(k1, WAITERS) == Items(x.k, WAITERS);
    ViewSame(x, k1);
    forall u | u in k1.tcb ensures KeyedTask(k1.tcb[u], x.holder == Some(u)) {
      assert KeyedTask(x.k.tcb[u], x.holder == Some(u));
    }
  }

  lemma WakeSound(x: X, q: nat) returns (k': K)
    requires XInv(x) && Items(x.k, Event(q)) != []
    ensures k' == WakeFrom(x.k, q)
    ensures XInv(x.(k := k'))
  {
    HeadLinked(x.k, Event(q));
    k' := WakeFromInv(x.k, q);
    var k1 := RouseSound(x, Head(x.k, Event(q)), EventItem);
  }

  lemma SwitchSound(x: X) returns (k': K)
    requires XInv(x) && SomeReady(x.k)
    ensures k' == Switch(x.k)
    ensures XInv(x.(k := k')) && Selected(x.k, k'.current)
  {
    k' := SwitchInv(x.k);
    SwitchedTakers(x.k);
    SameSound(x, k');
  }

  lemma SwitchedTakers(k: K)
    ensures Items(Switch(k), WAITERS) == Items(k, WAITERS)
  {
  }

  /** Waiting on some other object. */
  lemma BlockSound(x: X, q: nat, ticks: nat) returns (k': K)
    requires XInv(x) && Runs(x.k) && 0 < q && 0 < ticks < M && x.phase[x.k.current].Idle?
    requires x.k.tcb[x.k.current].eventIn.None? && !x.k.tcb[x.k.current].notify.Waiting?
    ensures k' == BlockOn(x.k, q, ticks)
    ensures XInv(x.(k := k'))
  {
    var k1 := JoinEventOk(x.k, q);
    JoinedElsewhere(x, q, k1);
    k' := DelaySound(x.(k := k1), ticks, true);
  }

  lemma JoinedElsewhere(x: X, q: nat, k1: K)
    requires Sound(x) && Inv(k1) && x.k.current in x.k.tcb && 0 < q && k1 == InsertInto(x.k, x.k.current, Event(q))
    ensures Sound(x.(k := k1))
  {
    ElsewhereView(x, q, k1);
  }

  lemma ElsewhereView(x: X, q: nat, k1: K)
    requires Keyed(x) && x.k.current in x.k.tcb && 0 < q && k1 == InsertInto(x.k, x.k.current, Event(q))
    ensures Keyed(x.(k := k1)) && View(x.(k := k1)) == View(x)
  {
    assert Items(k1, WAITERS) == Items(x.k, WAITERS);
    ViewSame(x, k1);
    forall t | t in k1.tcb ensures KeyedTask(k1.tcb[t], x.holder == Some(t)) {
      assert KeyedTask(x.k.tcb[t], x.holder == Some(t));
    }
  }

  lemma CreateSound(x: X, t: Task, priority: nat) returns (k': K)
    requires XInv(x) && t !in x.k.tcb
    ensures k' == CreateTask(x.k, t, priority)
    ensures XInv(X(k', x.holder, x.phase[t := I.Idle]))
  {
    k' := CreateTaskInv(x.k, t, priority);
    CreatedTcb(x.k, t, priority);
    CreatedView(x, t, priority, k');
    I.CreateInv(View(x), t, NewTcb(priority).prio);
  }

  lemma CreatedTcb(k: K, t: Task, priority: nat)
    requires t !in k.tcb
    ensures CreateTask(k, t, priority).tcb ==
            k.tcb[t := NewTcb(priority).(stateIn := Some(Ready(NewTcb(priority).prio)))]
    ensures Items(CreateTask(k, t, priority), WAITERS) == Items(k, WAITERS)
  {
  }

  lemma CreatedView(x: X, t: Task, priority: nat, k': K)
    requires Keyed(x) && t !in x.k.tcb && I.WellFormed(View(x))
    requires k'.tcb == x.k.tcb[t := NewTcb(priority).(stateIn := Some(Ready(NewTcb(priority).prio)))]
    requires Items(k', WAITERS) == Items(x.k, WAITERS)
    ensures Keyed(X(k', x.holder, x.phase[t := I.Idle]))
    ensures View(X(k', x.holder, x.phase[t := I.Idle])) == I.Create(View(x), t, NewTcb(priority).prio)
  {
    var v, v' := View(x), View(X(k', x.holder, x.phase[t := I.Idle]));
    assert v'.prio == v.prio[t := NewTcb(priority).prio] && v'.base == v.base[t := NewTcb(priority).prio];
    assert v'.ready == v.ready + {t};
    assert v'.waiters == v.waiters;
    forall u | u in k'.tcb ensures KeyedTask(k'.tcb[u], x.holder == Some(u)) {
      if u != t {
        assert KeyedTask(x.k.tcb[u], x.holder == Some(u));
      }
    }
  }

  // ----- changes of priority

  lemma Reranked(x: X, h: Task, p: nat) returns (k': K)
    requires Inv(x.k) && Keyed(x) && h in x.k.tcb && p < MAX_PRIORITIES
    ensures k' == Reprioritise(x.k, h, p, x.k.tcb[h].base, EventValueFor(x.k.tcb[h], p))
    ensures Inv(k') && Keyed(x.(k := k')) && Raised(x, h, p, k')
  {
    var ev := EventValueFor(x.k.tcb[h], p);
    k' := ReprioritiseOk(x.k, h, p, x.k.tcb[h].base, ev);
    assert Settled(x.k.tcb[h]) && PriorityOk(x.k.tcb[h]) && KeyedTask(x.k.tcb[h], x.holder == Some(h));
    ChangedInv(x.k, h, ReprioTcb(x.k.tcb[h], p, x.k.tcb[h].base, ev), k');
    RerankedView(x, h, p, k');
  }

  /** Only the priority of one task has changed. */
  ghost predicate Raised(x: X, h: Task, p: nat, k': K) {
    && View(x.(k := k')) == View(x).(prio := View(x).prio[h := p])
    && k' == x.k.(lists := k'.lists, tcb := k'.tcb, top := k'.top, nextUnblock := k'.nextUnblock, due := k'.due)
    && k'.tcb.Keys == x.k.tcb.Keys
    && (forall u :: u in x.k.tcb && u != h ==> k'.tcb[u] == x.k.tcb[u])
    && (h in x.k.tcb ==> k'.tcb[h].eventIn == x.k.tcb[h].eventIn && k'.tcb[h].notify == x.k.tcb[h].notify)
  }

  lemma RerankedView(x: X, h: Task, p: nat, k': K)
    requires Keyed(x) && h in x.k.tcb && PriorityOk(x.k.tcb[h]) && p <= MAX_PRIORITIES
    requires Changed(x.k, h, ReprioTcb(x.k.tcb[h], p, x.k.tcb[h].base, MAX_PRIORITIES - p), k')
    requires ListOf(k', WAITERS) == ListOf(x.k, WAITERS)
    ensures Keyed(x.(k := k')) && Raised(x, h, p, k')
  {
    var v, v' := View(x), View(x.(k := k'));
    assert v'.prio == v.prio[h := p] && v'.base == v.base;
    assert v'.ready == v.ready;
    forall u | u in k'.tcb ensures KeyedTask(k'.tcb[u], x.holder == Some(u)) {
      assert KeyedTask(x.k.tcb[u], x.holder == Some(u));
    }
  }

  /** `PriorityInherit` lends the holder the running task's priority, if that is higher. */
  lemma InheritOk(x: X, h: Task) returns (k': K)
    requires Inv(x.k) && Keyed(x) && h in x.k.tcb
    ensures x.k.tcb[x.k.current].prio < MAX_PRIORITIES
    ensures k' == Inherit(x.k, h)
    ensures Inv(k') && Keyed(x.(k := k')) && Raised(x, h, I.Max(x.k.tcb[h].prio, x.k.tcb[x.k.current].prio), k')
  {
    assert PriorityOk(x.k.tcb[x.k.current]);
    var p := x.k.tcb[x.k.current].prio;
    if x.k.tcb[h].prio >= p {
      k' := x.k;
      assert View(x).prio == View(x).prio[h := x.k.tcb[h].prio];
    } else {
      k' := Reranked(x, h, p);
    }
  }

  // ----- the mutex paths

  lemma WaiterKeys(x: X, i: nat)
    requires Links(x.k) && Keyed(x) && i < |Items(x.k, WAITERS)|
    ensures Items(x.k, WAITERS)[i] in x.k.tcb
    ensures Keys(x.k, WAITERS)[i] == MAX_PRIORITIES - x.k.tcb[Items(x.k, WAITERS)[i]].prio &&
            x.k.tcb[Items(x.k, WAITERS)[i]].prio <= MAX_PRIORITIES
  {
    assert Items(x.k, WAITERS)[i] in Items(x.k, WAITERS);
    assert KeyedTask(x.k.tcb[Items(x.k, WAITERS)[i]], x.holder == Some(Items(x.k, WAITERS)[i]));
  }

  /** The list of takers is sorted by falling priority, and a newcomer goes behind its equals. */
  lemma TakersInOrder(x: X, t: Task) returns (pos: nat)
    requires Links(x.k) && Keyed(x) && t in x.k.tcb && I.WellFormed(View(x)) && I.Queued(View(x))
    ensures pos == InsertPos(Keys(x.k, WAITERS), x.k.tcb[t].Key(EventItem))
    ensures I.InOrder(View(x), t, pos)
  {
    pos := InsertPos(Keys(x.k, WAITERS), x.k.tcb[t].Key(EventItem));
    var ws := Items(x.k, WAITERS);
    assert KeyedTask(x.k.tcb[t], x.holder == Some(t));
    forall i | 0 <= i < |ws|
      ensures i < pos ==> x.k.tcb[t].prio <= x.k.tcb[ws[i]].prio
      ensures pos <= i ==> x.k.tcb[ws[i]].prio < x.k.tcb[t].prio
    {
      WaiterKeys(x, i);
      if pos <= i {
        WaiterKeys(x, pos);
        assert pos < i ==> View(x).prio[ws[i]] <= View(x).prio[ws[pos]];
      }
    }
  }

  lemma JoinTakers(x: X, k': K, pos: nat)
    requires x.k.current in x.k.tcb && pos == InsertPos(Keys(x.k, WAITERS), x.k.tcb[x.k.current].Key(EventItem))
    requires Keyed(x) && k' == InsertInto(x.k, x.k.current, WAITERS)
    ensures View(x.(k := k')) == View(x).(waiters := InsertAt(View(x).waiters, pos, x.k.current))
    ensures Keyed(x.(k := k'))
  {
    var v, v' := View(x), View(x.(k := k'));
    assert v'.prio == v.prio && v'.base == v.base && v'.ready == v.ready;
    forall u | u in k'.tcb ensures KeyedTask(k'.tcb[u], x.holder == Some(u)) {
      assert KeyedTask(x.k.tcb[u], x.holder == Some(u));
    }
  }

  /** The running task asks for a mutex that another task holds. */
  ghost predicate MayRequest(x: X, ticks: nat)
    requires x.k.current in x.k.tcb
  {
    && Runs(x.k) && 0 < ticks < M && x.holder.Some? && x.holder.value != x.k.current
    && x.k.tcb[x.k.current].eventIn.None? && !x.k.tcb[x.k.current].notify.Waiting?
  }

  lemma RequestView(x: X, ticks: nat) returns (x': X)
    requires XInv(x) && MayRequest(x, ticks)
    ensures x.holder.value in x.k.tcb && x.k.tcb[x.k.current].prio <= MAX_PRIORITIES
    ensures x' == RequestMutex(x, ticks) && Inv(x'.k) && Keyed(x') && x'.k.suspended == 0
    ensures exists pos :: I.InOrder(View(x), x.k.current, pos) && View(x') == I.Block(View(x), x.k.current, pos)
  {
    var t, h := x.k.current, x.holder.value;
    assert h in View(x).prio;
    var pos := TakersInOrder(x, t);
    var k1 := InheritOk(x, h);
    SameWaiterKeys(x, h, k1);
    var k2 := JoinEventOk(k1, 0);
    JoinTakers(x.(k := k1), k2, pos);
    var k3 := DelayInv(k2, ticks, true);
    var k4 := DelayCurrentOk(k2, ticks, true);
    ViewParked(x.(k := k2), ticks, true, k3);
    ParkedKeyed(x.(k := k2), ticks, true, k3);
    x' := RequestMutex(x, ticks);
    RequestedView(x, pos, k1, k2, k3, x');
  }

  /** The task that asks is on the list of the mutex, and sleeps for as long as it has said, or for ever. */
  lemma RequestSleeps(x: X, ticks: nat) returns (x': X)
    requires XInv(x) && MayRequest(x, ticks)
    ensures x.holder.value in x.k.tcb && x.k.tcb[x.k.current].prio <= MAX_PRIORITIES && x' == RequestMutex(x, ticks)
    ensures var t, k := x.k.current, x'.k;
            && t in k.tcb && k.tcb[t].eventIn == Some(WAITERS)
            && (if ticks == MAX_DELAY then k.tcb[t].stateIn == Some(SuspendedTasks)
                else Blocked(k, t) && t in k.due && k.due[t] == x.k.clock + ticks)
  {
    hide Inv, Keyed, View;
    x' := RequestView(x, ticks);
    var h := x.holder.value;
    var k1 := InheritOk(x, h);
    StillRunning(x, h, k1);
    var k2 := BlockOnInv(k1, 0, ticks);
  }

  lemma StillRunning(x: X, h: Task, k1: K)
    requires x.k.current in x.k.tcb && Runs(x.k) && h != x.k.current && h in x.k.tcb
    requires exists p :: Raised(x, h, p, k1)
    ensures k1.current == x.k.current && k1.current in k1.tcb && Runs(k1) && k1.clock == x.k.clock
    ensures k1.tcb[k1.current] == x.k.tcb[x.k.current]
  {
  }

  /** The holder does not wait, so that raising it leaves the order of the takers alone. */
  lemma SameWaiterKeys(x: X, h: Task, k1: K)
    requires Links(x.k) && Links(k1) && I.Inv(View(x)) && x.holder == Some(h) && h in x.k.tcb && h != x.k.current
    requires Items(k1, WAITERS) == Items(x.k, WAITERS) && k1.tcb.Keys == x.k.tcb.Keys
    requires forall u :: u in x.k.tcb && u != h ==> k1.tcb[u] == x.k.tcb[u]
    ensures h !in Items(x.k, WAITERS) && Keys(k1, WAITERS) == Keys(x.k, WAITERS)
    ensures x.k.current in x.k.tcb
  {
    assert View(x).phase[h].Idle?;
    KeysFrame(x.k, k1, WAITERS);
  }

  lemma RequestedView(x: X, pos: nat, k1: K, k2: K, k3: K, x': X)
    requires I.Inv(View(x)) && x.holder.Some? && x.k.current in x.k.tcb && x.holder.value in x.k.tcb &&
             x.holder.value != x.k.current
    requires I.InOrder(View(x), x.k.current, pos) && k1.current == x.k.current == k2.current
    requires View(x.(k := k1)) == View(x).(prio := View(x).prio[x.holder.value := I.Max(x.k.tcb[x.holder.value].prio,
             x.k.tcb[x.k.current].prio)])
    requires View(x.(k := k2)) == View(x.(k := k1)).(waiters := InsertAt(View(x).waiters, pos, x.k.current))
    requires View(x.(k := k3)) == I.Sleep(View(x.(k := k2)), x.k.current)
    requires x' == x.(k := k3, phase := x.phase[x.k.current := I.Trying(DidInherit(x.k, x.holder.value))])
    ensures View(x') == I.Block(View(x), x.k.current, pos)
  {
    var v := View(x);
    assert v.base[x.holder.value] <= v.prio[x.holder.value];
    assert DidInherit(x.k, x.holder.value) == (v.base[x.holder.value] < v.prio[x.k.current]);
  }

  lemma RequestSound(x: X, ticks: nat) returns (x': X)
    requires XInv(x) && MayRequest(x, ticks)
    ensures x.holder.value in x.k.tcb && x.k.tcb[x.k.current].prio <= MAX_PRIORITIES
    ensures x' == RequestMutex(x, ticks) && XInv(x')
  {
    x' := RequestView(x, ticks);
    var pos :| I.InOrder(View(x), x.k.current, pos) && View(x') == I.Block(View(x), x.k.current, pos);
    assert x.k.current in View(x).ready;
    I.BlockInv(View(x), x.k.current, pos);
  }

  lemma TakeSound(x: X) returns (x': X)
    requires XInv(x) && Runs(x.k) && x.holder.None? && I.Outranked(View(x), x.k.current)
    ensures x' == TakeMutex(x) && XInv(x')
    ensures x'.k.tcb[x.k.current].prio == x'.k.tcb[x.k.current].base
  {
    var t := x.k.current;
    assert PriorityOk(x.k.tcb[t]) && Settled(x.k.tcb[t]) && KeyedTask(x.k.tcb[t], false);
    var k' := RelabelOk(x.k, t, x.k.tcb[t].(mutexesHeld := x.k.tcb[t].mutexesHeld + 1));
    ChangedInv(x.k, t, k'.tcb[t], k');
    x' := TakeMutex(x);
    TakenView(x, x');
    I.TakeInv(View(x), t);
    assert View(x').prio[t] == View(x').base[t];
  }

  lemma TakenView(x: X, x': X)
    requires Keyed(x) && x.k.current in x.k.tcb && x.holder.None? && x' == TakeMutex(x)
    ensures Keyed(x') && View(x') == I.Take(View(x), x.k.current)
  {
    var v, v' := View(x), View(x');
    assert v'.prio == v.prio && v'.base == v.base && v'.ready == v.ready && v'.waiters == v.waiters;
    forall u | u in x'.k.tcb ensures KeyedTask(x'.k.tcb[u], x'.holder == Some(u)) {
      assert KeyedTask(x.k.tcb[u], x.holder == Some(u));
    }
  }

  lemma ExpireSound(x: X) returns (x': X)
    requires XInv(x) && Runs(x.k) && x.holder.Some? && x.phase[x.k.current].Trying?
    ensures x' == ExpireMutex(x) && XInv(x')
  {
    x' := ExpireMutex(x);
    assert x.k.current in View(x).ready;
    I.ExpireInv(View(x), x.k.current);
    assert View(x') == I.Expire(View(x), x.k.current);
    assert Keyed(x');
  }

  lemma SeeSound(x: X) returns (x': X)
    requires XInv(x) && Runs(x.k) && x.holder.None? && x.phase[x.k.current].Trying?
    ensures x' == SeeMutex(x) && XInv(x')
  {
    x' := SeeMutex(x);
    assert x.k.current in View(x).ready;
    I.SeeInv(View(x), x.k.current);
    assert View(x') == I.See(View(x), x.k.current);
    assert Keyed(x');
  }

  /** The task that returns has lent the holder nothing. */
  lemma ReturnSound(x: X) returns (x': X)
    requires XInv(x) && Runs(x.k) && x.holder.Some? && x.phase[x.k.current].Late?
    ensures x' == ReturnLate(x) && XInv(x')
    ensures x.holder.value in x.k.tcb && x.holder.value != x.k.current
    ensures x.k.tcb[x.k.current].prio <= x.k.tcb[x.holder.value].base
  {
    x' := ReturnLate(x);
    assert x.k.current in View(x).ready && x.holder.value in View(x).prio;
    I.ReturnInv(View(x), x.k.current);
    assert View(x') == I.Return(View(x), x.k.current);
    assert View(x).prio[x.k.current] <= View(x).base[x.holder.value];
    assert Keyed(x');
  }

  lemma HighestWaiterView(x: X)
    requires Links(x.k) && Keyed(x) && I.WellFormed(View(x))
    ensures HighestWaiter(x.k) == I.HighestWaiter(View(x))
  {
    if Items(x.k, WAITERS) != [] {
      WaiterKeys(x, 0);
    }
  }

  /** The branch of `PriorityDisinheritAfterTimeout` that clears a bit is never taken. */
  lemma NeverAlone(x: X)
    requires XInv(x) && Runs(x.k) && x.holder.Some? && x.phase[x.k.current].Leaving?
    ensures x.holder.value in x.k.tcb && HighestWaiter(x.k) < MAX_PRIORITIES
    ensures !(Lowers(x.k.tcb[x.holder.value], HighestWaiter(x.k)) && Alone(x.k, x.holder.value))
  {
    var v, t, h := View(x), x.k.current, x.holder.value;
    assert t in v.ready && h in v.prio;
    HighestWaiterView(x);
    if v.waiters != [] {
      assert v.waiters[0] in v.waiters && PriorityOk(x.k.tcb[v.waiters[0]]);
    }
    I.LeavesCompany(v, t);
    if Lowers(x.k.tcb[h], HighestWaiter(x.k)) && Alone(x.k, h) {
      var u :| u in v.ready && u != h && v.prio[u] == v.prio[h];
      CompanyOnTheList(x.k, h, u);
    }
  }

  lemma CompanyOnTheList(k: K, h: Task, u: Task)
    requires Links(k) && h in k.tcb && u != h && IsReady(k, u) && k.tcb[u].prio == k.tcb[h].prio
    ensures !Alone(k, h)
  {
    DelayedMembers(k, u);
    if k.tcb[h].stateIn == Some(Ready(k.tcb[h].prio)) {
      DelayedMembers(k, h);
    }
  }

  lemma LeaveSound(x: X) returns (x': X)
    requires XInv(x) && Runs(x.k) && x.phase[x.k.current].Leaving?
    ensures x.holder.Some? ==> x.holder.value in x.k.tcb && x.k.tcb[x.holder.value].base <= MAX_PRIORITIES
    ensures x' == LeaveMutex(x) && XInv(x')
    ensures x.holder.Some? && x.phase[x.k.current].didInherit ==> I.Owed(View(x'), x.holder.value)
  {
    assert x.k.current in View(x).ready;
    I.LeaveInv(View(x), x.k.current);
    if x.holder.Some? {
      assert x.holder.value in View(x).prio && PriorityOk(x.k.tcb[x.holder.value]);
    }
    if x.holder.Some? && x.phase[x.k.current].didInherit {
      x' := LeaveLowers(x);
    } else {
      x' := LeaveMutex(x);
      assert View(x') == I.Leave(View(x), x.k.current);
      assert Keyed(x');
    }
  }

  lemma LeaveLowers(x: X) returns (x': X)
    requires XInv(x) && Runs(x.k) && x.phase[x.k.current] == I.Leaving(true) && x.holder.Some?
    ensures x.holder.value in x.k.tcb && x.k.tcb[x.holder.value].base <= MAX_PRIORITIES
    ensures x' == LeaveMutex(x) && Inv(x'.k) && Keyed(x') && x'.k.suspended == 0
    ensures View(x') == I.Leave(View(x), x.k.current)
  {
    var h := x.holder.value;
    NeverAlone(x);
    HighestWaiterView(x);
    assert PriorityOk(x.k.tcb[h]);
    var k' := DisinheritAfterTimeoutOk(x, h, HighestWaiter(x.k));
    x' := LeaveMutex(x);
    LeftView(x, h, PriorityToUse(x.k.tcb[h], HighestWaiter(x.k)), x');
  }

  lemma DisinheritAfterTimeoutOk(x: X, h: Task, hw: nat) returns (k': K)
    requires Inv(x.k) && Keyed(x) && x.holder == Some(h) && h in x.k.tcb && hw < MAX_PRIORITIES
    requires !(Lowers(x.k.tcb[h], hw) && Alone(x.k, h))
    ensures PriorityToUse(x.k.tcb[h], hw) < MAX_PRIORITIES
    ensures k' == DisinheritAfterTimeout(x.k, h, hw) && Inv(k') && Keyed(x.(k := k'))
    ensures Raised(x, h, PriorityToUse(x.k.tcb[h], hw), k')
  {
    assert PriorityOk(x.k.tcb[h]) && KeyedTask(x.k.tcb[h], true);
    if Lowers(x.k.tcb[h], hw) {
      InCompany(x.k, h, hw);
      k' := Reranked(x, h, PriorityToUse(x.k.tcb[h], hw));
    } else {
      k' := x.k;
      assert View(x).prio == View(x).prio[h := x.k.tcb[h].prio];
    }
  }

  lemma LeftView(x: X, h: Task, p: nat, x': X)
    requires I.WellFormed(View(x)) && x.holder == Some(h) && x.k.current in x.k.tcb && x.k.current in x.phase
    requires x.phase[x.k.current] == I.Leaving(true) && h in x.k.tcb &&
             p == I.Max(x.k.tcb[h].base, I.HighestWaiter(View(x)))
    requires x'.holder == x.holder && x'.phase == x.phase[x.k.current := I.Idle]
    requires View(x.(k := x'.k)) == View(x).(prio := View(x).prio[h := p]) && Keyed(x.(k := x'.k))
    ensures View(x') == I.Leave(View(x), x.k.current) && Keyed(x')
  {
  }

  /** A give takes the holder back to its base priority. */
  lemma DisinheritOk(x: X) returns (k': K)
    requires Inv(x.k) && x.k.suspended == 0 && Keyed(x) && Runs(x.k) && x.holder == Some(x.k.current)
    ensures x.k.tcb[x.k.current].base <= MAX_PRIORITIES
    ensures k' == Disinherit(x.k, x.k.current) && Inv(k') && k'.suspended == 0 && k'.tcb.Keys == x.k.tcb.Keys
    ensures Keyed(X(k', None, x.phase))
    ensures View(X(k', None, x.phase)) == View(x).(holder := None,
            prio := View(x).prio[x.k.current := x.k.tcb[x.k.current].base])
  {
    hide Inv;
    var t := x.k.current;
    var base := x.k.tcb[t].base;
    var k1 := FreedOk(x);
    if x.k.tcb[t].prio == base {
      k' := k1;
      AtBaseAlready(x, t);
    } else {
      k' := BackToBase(x, X(k1, None, x.phase));
    }
  }

  lemma AtBaseAlready(x: X, t: Task)
    requires t in x.k.tcb && x.k.tcb[t].prio == x.k.tcb[t].base && x.k.tcb[t].base <= MAX_PRIORITIES &&
             x.k.tcb[t].mutexesHeld == 1
    ensures Disinherit(x.k, t) == Relabel(x.k, t, x.k.tcb[t].(mutexesHeld := 0))
    ensures View(x).prio == View(x).prio[t := x.k.tcb[t].base]
  {
  }

  lemma BackToBase(x: X, x1: X) returns (k': K)
    requires Runs(x.k) && x.k.tcb[x.k.current].base < MAX_PRIORITIES &&
             x.k.tcb[x.k.current].base != x.k.tcb[x.k.current].prio
    requires KeyedTask(x.k.tcb[x.k.current], true)
    requires x1.k == Relabel(x.k, x.k.current, x.k.tcb[x.k.current].(mutexesHeld := 0)) && Inv(x1.k) && Keyed(x1)
    ensures k' == Disinherit(x.k, x.k.current)
    ensures Inv(k') && Keyed(x1.(k := k')) && Raised(x1, x.k.current, x.k.tcb[x.k.current].base, k')
  {
    k' := Reranked(x1, x.k.current, x.k.tcb[x.k.current].base);
    DisinheritIsReprioritise(x.k, x.k.current);
  }

  lemma FreedOk(x: X) returns (k1: K)
    requires Inv(x.k) && Keyed(x) && x.holder == Some(x.k.current)
    ensures x.k.tcb[x.k.current].base < MAX_PRIORITIES && KeyedTask(x.k.tcb[x.k.current], true)
    ensures k1 == Relabel(x.k, x.k.current, x.k.tcb[x.k.current].(mutexesHeld := 0)) && Inv(k1)
    ensures Keyed(X(k1, None, x.phase)) && View(X(k1, None, x.phase)) == View(x).(holder := None)
  {
    var t := x.k.current;
    var tcb := x.k.tcb[t];
    assert PriorityOk(tcb) && Settled(tcb) && KeyedTask(tcb, true);
    k1 := RelabelOk(x.k, t, tcb.(mutexesHeld := 0));
    ChangedInv(x.k, t, k1.tcb[t], k1);
    FreedView(x, X(k1, None, x.phase));
  }

  lemma DisinheritIsReprioritise(k: K, h: Task)
    requires Runs(k) && h == k.current && k.tcb[h].base <= MAX_PRIORITIES && k.tcb[h].prio != k.tcb[h].base
    requires k.tcb[h].mutexesHeld == 1 && k.tcb[h].eventValue < VALUE_IN_USE
    ensures var k1 := Relabel(k, h, k.tcb[h].(mutexesHeld := 0));
            Disinherit(k, h) == Reprioritise(k1, h, k.tcb[h].base, k.tcb[h].base,
                EventValueFor(k1.tcb[h], k.tcb[h].base))
  {
  }

  lemma FreedView(x: X, x1: X)
    requires Keyed(x) && x.holder == Some(x.k.current) && x.k.current in x.k.tcb
    requires x1 == X(Relabel(x.k, x.k.current, x.k.tcb[x.k.current].(mutexesHeld := 0)), None, x.phase)
    ensures Keyed(x1) && View(x1) == View(x).(holder := None)
  {
    var v, v' := View(x), View(x1);
    assert v'.prio == v.prio && v'.base == v.base && v'.ready == v.ready && v'.waiters == v.waiters;
    forall u | u in x1.k.tcb ensures KeyedTask(x1.k.tcb[u], x1.holder == Some(u)) {
      assert KeyedTask(x.k.tcb[u], x.holder == Some(u));
    }
  }

  lemma GiveSound(x: X) returns (x': X)
    requires XInv(x) && Runs(x.k) && x.holder == Some(x.k.current)
    ensures x.k.tcb[x.k.current].base <= MAX_PRIORITIES
    ensures x' == GiveMutex(x) && XInv(x')
    ensures x.k.current in x'.k.tcb && x'.k.tcb[x.k.current].prio == x'.k.tcb[x.k.current].base
  {
    var k1 := DisinheritOk(x);
    var x1 := X(k1, None, x.phase);
    x' := GiveMutex(x);
    assert x.k.current in View(x).ready;
    I.GiveInv(View(x));
    if Items(k1, WAITERS) != [] {
      HeadLinked(k1, WAITERS);
      var k2 := WakeFromInv(k1, 0);
      var k3 := RouseOk(k1, Head(k1, WAITERS), EventItem);
      ViewRoused(x1, Head(k1, WAITERS), k3);
      RousedKeyed(x1, Head(k1, WAITERS), k3);
    }
    assert View(x') == I.Give(View(x));
    assert View(x').base == View(x).base;
    assert View(x').prio[x.k.current] == View(x').base[x.k.current];
  }
}

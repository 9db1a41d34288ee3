/** Runs in which tasks may also do what `MutexTheorems` leaves out: ask for a mutex they hold, or give one
    that another task holds. Here is a run from boot in which such a request leaves a stale bit. */
module MutexSelfTake {
  import opened Basics
  import opened Rings
  import opened KernelModel
  import opened KernelSteps
  import opened KernelApi
  import opened KernelInvariant
  import opened KernelRuns
  import opened KernelTicks
  import opened Mutex
  import opened MutexRuns
  import opened MutexTheorems
  import I = Inheritance

  /** The running task asks for the mutex it holds itself. */
  ghost predicate AsksItself(x: X, ticks: nat, x': X) {
    && x.k.current in x.k.tcb && x.k.current in x.phase && Runs(x.k) && x.holder == Some(x.k.current)
    && 0 < ticks < M && x.phase[x.k.current].Idle?
    && x.k.tcb[x.k.current].eventIn.None? && !x.k.tcb[x.k.current].notify.Waiting?
    && x.k.tcb[x.k.current].prio <= MAX_PRIORITIES && x' == RequestMutex(x, ticks)
  }

  /** The running task gives the mutex for the one that holds it. */
  ghost predicate GivesAway(x: X, x': X) {
    && x.k.current in x.k.tcb && x.k.current in x.phase && Runs(x.k) && x.phase[x.k.current].Idle?
    && x.holder.Some? && x.holder != Some(x.k.current) && x.holder.value in x.k.tcb
    && x.k.tcb[x.holder.value].base <= MAX_PRIORITIES && x' == GiveMutex(x)
  }

  /** What a run may contain beyond the steps of `MutexTheorems`. */
  datatype Allowed = Allowed(selfTake: bool, giveAway: bool)

  ghost predicate AnyNext(a: Allowed, x: X, s: XStep, x': X) {
    || XNext(x, s, x')
    || (a.selfTake && s.RequestX? && AsksItself(x, s.ticks, x'))
    || (a.giveAway && s.GiveX? && GivesAway(x, x'))
  }

  ghost predicate AnyRun(a: Allowed, x: X, steps: seq<XStep>, x': X)
    decreases |steps|
  {
    if steps == [] then x' == x
    else exists y :: AnyNext(a, x, steps[0], y) && AnyRun(a, y, steps[1..], x')
  }

  lemma {:induction false} NothingAllowed(a: Allowed, x: X, steps: seq<XStep>, x': X)
    requires AnyRun(a, x, steps, x') && !a.selfTake && !a.giveAway
    ensures XRun(x, steps, x')
    decreases |steps|
  {
    if steps != [] {
      var y :| AnyNext(a, x, steps[0], y) && AnyRun(a, y, steps[1..], x');
      NothingAllowed(a, y, steps[1..], x');
    }
  }

  /** The state of a run from boot. */
  ghost predicate Reached(a: Allowed, x: X) {
    exists steps :: AnyRun(a, Booted(1, 1), steps, x)
  }

  function Booted(t: Task, priority: nat): X {
    X(Boot(t, priority), None, map[t := I.Idle])
  }

  lemma {:induction false} Extend(a: Allowed, x: X, steps: seq<XStep>, y: X, s: XStep, z: X)
    requires AnyRun(a, x, steps, y) && AnyNext(a, y, s, z)
    ensures AnyRun(a, x, steps + [s], z)
    decreases |steps|
  {
    if steps == [] {
      assert AnyRun(a, z, [], z);
      assert [s][1..] == [];
    } else {
      var w :| AnyNext(a, x, steps[0], w) && AnyRun(a, w, steps[1..], y);
      Extend(a, w, steps[1..], y, s, z);
      assert (steps + [s])[1..] == steps[1..] + [s];
    }
  }

  lemma Then(a: Allowed, y: X, s: XStep, z: X)
    requires Reached(a, y) && AnyNext(a, y, s, z)
    ensures Reached(a, z)
  {
    var steps :| AnyRun(a, Booted(1, 1), steps, y);
    Extend(a, Booted(1, 1), steps, y, s, z);
  }

  /** The steps the run is made of, each with what it takes. */
  lemma ThenTake(a: Allowed, y: X, z: X)
    requires Reached(a, y) && y.k.current in y.k.tcb && y.k.current in y.phase && Runs(y.k) && y.holder.None?
    requires !y.phase[y.k.current].Leaving? && NothingOutranks(y.k, y.k.current) && z == TakeMutex(y)
    ensures Reached(a, z)
  {
    Then(a, y, TakeX, z);
  }

  lemma ThenCreate(a: Allowed, y: X, t: Task, p: nat, z: X)
    requires Reached(a, y) && y.k.current in y.k.tcb && y.k.current in y.phase
    requires t !in y.k.tcb && z == X(CreateTask(y.k, t, p), y.holder, y.phase[t := I.Idle])
    ensures Reached(a, z)
  {
    Then(a, y, CreateX(t, p), z);
  }

  lemma ThenSwitch(a: Allowed, y: X, z: X)
    requires Reached(a, y) && y.k.current in y.k.tcb && y.k.current in y.phase && SomeReady(y.k) &&
             z == y.(k := Switch(y.k))
    ensures Reached(a, z)
  {
    Then(a, y, SwitchX, z);
  }

  lemma ThenTick(a: Allowed, y: X, z: X)
    requires Reached(a, y) && y.k.current in y.k.tcb && y.k.current in y.phase && z == y.(k := Tick(y.k))
    ensures Reached(a, z)
  {
    Then(a, y, TickX, z);
  }

  lemma ThenRequest(a: Allowed, y: X, ticks: nat, z: X)
    requires Reached(a, y) && y.k.current in y.k.tcb && y.k.current in y.phase && MayRequest(y, ticks) &&
             y.phase[y.k.current].Idle?
    requires y.holder.value in y.k.tcb && y.k.tcb[y.k.current].prio <= MAX_PRIORITIES && z == RequestMutex(y, ticks)
    ensures Reached(a, z)
  {
    hide RequestMutex;
    Then(a, y, RequestX(ticks), z);
  }

  lemma ThenAskItself(a: Allowed, y: X, ticks: nat, z: X)
    requires a.selfTake && Reached(a, y) && AsksItself(y, ticks, z)
    ensures Reached(a, z)
  {
    Then(a, y, RequestX(ticks), z);
  }

  lemma ThenGiveAway(a: Allowed, y: X, z: X)
    requires a.giveAway && Reached(a, y) && GivesAway(y, z)
    ensures Reached(a, z)
  {
    Then(a, y, GiveX, z);
  }

  lemma ThenExpire(a: Allowed, y: X, z: X)
    requires Reached(a, y) && y.k.current in y.k.tcb && y.k.current in y.phase && Runs(y.k)
    requires y.holder.Some? && y.phase[y.k.current].Trying? && z == ExpireMutex(y)
    ensures Reached(a, z)
  {
    Then(a, y, ExpireX, z);
  }

  lemma ThenLeave(a: Allowed, y: X, z: X)
    requires Reached(a, y) && y.k.current in y.k.tcb && y.k.current in y.phase && Runs(y.k) &&
             y.phase[y.k.current].Leaving?
    requires y.holder.Some? && y.holder.value in y.k.tcb && y.k.tcb[y.holder.value].base <= MAX_PRIORITIES &&
             z == LeaveMutex(y)
    ensures Reached(a, z)
  {
    Then(a, y, LeaveX, z);
  }

  lemma ThenDelay(a: Allowed, y: X, ticks: nat, z: X)
    requires Reached(a, y) && y.k.current in y.k.tcb && y.k.current in y.phase && Runs(y.k) && 0 < ticks < M
    requires y.phase[y.k.current].Idle? && z == y.(k := DelayCurrent(y.k, ticks, false))
    ensures Reached(a, z)
  {
    Then(a, y, DelayX(ticks, false), z);
  }

  // ----- what the run looks like, step by step

  ghost predicate Scene(x: X, v: I.V) {
    Inv(x.k) && x.k.suspended == 0 && Keyed(x) && View(x) == v
  }

  predicate Quiet(k: K, t: Task) {
    t in k.tcb && k.tcb[t].eventIn.None? && !k.tcb[t].notify.Waiting?
  }

  predicate Sleeps(k: K, t: Task, at: nat) {
    Blocked(k, t) && t in k.due && k.due[t] == at
  }

  lemma FirstTwo(s: seq<Task>)
    requires NoDup(s) && |s| >= 2
    ensures s[0] in s && s[1] in s && s[0] != s[1]
  {
  }

  lemma SameItems(s: seq<Task>, w: seq<Task>)
    requires NoDup(s) && NoDup(w) && |w| <= 1 && forall y :: y in s <==> y in w
    ensures s == w
  {
    assert forall i :: 0 <= i < |s| ==> s[i] in s;
    assert forall i :: 0 <= i < |w| ==> w[i] in w;
    if |s| >= 2 {
      FirstTwo(s);
    } else if w != [] {
      assert w[0] in s;
    }
  }

  /** The task t, the only one ready, gets the processor. */
  lemma SwitchTo(x: X, v: I.V, t: Task) returns (x': X)
    requires Scene(x, v) && x.k.current in x.phase && t in x.k.tcb && v.ready == {t}
    ensures Scene(x', v) && x'.k.current == t && Runs(x'.k) && x'.k.tcb == x.k.tcb && x'.phase == x.phase &&
            x'.holder == x.holder
    ensures x'.k == x.k.(lists := x'.k.lists, current := t) && SomeReady(x.k) && x' == x.(k := Switch(x.k))
  {
    assert t in View(x).ready;
    var k' := SwitchInv(x.k);
    SwitchedTakers(x.k);
    ViewSame(x, k');
    x' := x.(k := k');
    assert k'.current in View(x).ready;
    SwitchedKeyed(x, k');
  }

  lemma SwitchedKeyed(x: X, k': K)
    requires Keyed(x) && k'.tcb == x.k.tcb
    ensures Keyed(x.(k := k'))
  {
    forall u | u in k'.tcb ensures KeyedTask(k'.tcb[u], x.holder == Some(u)) {
      assert KeyedTask(x.k.tcb[u], x.holder == Some(u));
    }
  }

  // ----- a tick that wakes one task

  ghost predicate OnlyDue(k: K, t: Task) {
    && Sleeps(k, t, k.clock + 1)
    && forall u :: u in k.tcb && u != t && Blocked(k, u) ==> u in k.due && k.due[u] > k.clock + 1
  }

  ghost predicate WokeOne(k: K, t: Task, k': K) {
    && t in k.tcb && k'.tcb == k.tcb[t := WokenTcb(k.tcb[t])]
    && k'.clock == k.clock + 1 && k'.due == k.due && k'.current == k.current && k'.suspended == k.suspended
    && {k'.delayed, k'.overflow} == {k.delayed, k.overflow}
  }

  lemma Woke(k: K, t: Task) returns (k': K)
    requires Inv(k) && OnlyDue(k, t) && k.suspended == 0
    ensures k' == Tick(k) && Inv(k') && WokeOne(k, t, k')
  {
    k' := ProcessTickInv(k);
    TickedOne(k, t, k');
  }

  lemma TickedOne(k: K, t: Task, k': K)
    requires OnlyDue(k, t) && TickedBetween(k, 1, k')
    ensures WokeOne(k, t, k')
  {
    forall u | u in k.tcb ensures k'.tcb[u] == if u == t then WokenTcb(k.tcb[u]) else k.tcb[u] {
    }
    assert k'.tcb == k.tcb[t := WokenTcb(k.tcb[t])];
  }

  lemma WokenTaker(k: K, t: Task, k': K, u: Task)
    requires Links(k) && Links(k') && WokeOne(k, t, k')
    ensures u in Items(k', WAITERS) <==> u in Items(k, WAITERS) && u != t
  {
    assert u in Items(k, WAITERS) ==> u in k.tcb && k.tcb[u].Container(EventItem) == Some(WAITERS);
    assert u in Items(k', WAITERS) ==> u in k'.tcb && k'.tcb[u].Container(EventItem) == Some(WAITERS);
    if u in k.tcb {
      assert Linked(k, u, k.tcb[u].Container(EventItem), EventItem);
      assert Linked(k', u, k'.tcb[u].Container(EventItem), EventItem);
    }
  }

  lemma WokenView(x: X, k': K, t: Task)
    requires Keyed(x) && WokeOne(x.k, t, k')
    ensures Keyed(x.(k := k'))
    ensures View(x.(k := k')) == View(x).(ready := View(x).ready + {t}, waiters := Items(k', WAITERS))
  {
    var v, v' := View(x), View(x.(k := k'));
    assert v'.prio == v.prio && v'.base == v.base && v'.ready == v.ready + {t};
    forall u | u in k'.tcb ensures KeyedTask(k'.tcb[u], x.holder == Some(u)) {
      assert KeyedTask(x.k.tcb[u], x.holder == Some(u));
    }
  }

  lemma WokenTakers(x: X, t: Task, k': K, waiters: seq<Task>)
    requires Links(x.k) && Links(k') && WokeOne(x.k, t, k')
    requires NoDup(waiters) && |waiters| <= 1 && (forall u :: u in waiters <==> u in View(x).waiters && u != t)
    ensures Items(k', WAITERS) == waiters
  {
    forall u ensures u in Items(k', WAITERS) <==> u in waiters {
      WokenTaker(x.k, t, k', u);
    }
    SameItems(Items(k', WAITERS), waiters);
  }

  lemma TickWakes(x: X, v: I.V, t: Task, waiters: seq<Task>) returns (x': X)
    requires Scene(x, v) && x.k.current in x.phase && OnlyDue(x.k, t)
    requires NoDup(waiters) && |waiters| <= 1 && (forall u :: u in waiters <==> u in v.waiters && u != t)
    ensures Scene(x', v.(ready := v.ready + {t}, waiters := waiters)) && WokeOne(x.k, t, x'.k)
    ensures x'.phase == x.phase && x'.holder == x.holder && x' == x.(k := Tick(x.k))
  {
    var k' := Woke(x.k, t);
    x' := x.(k := k');
    WokenTakers(x, t, k', waiters);
    WokenView(x, k', t);
  }

  lemma StillSleeps(k: K, t: Task, k': K, u: Task, at: nat)
    requires WokeOne(k, t, k') && u != t && Sleeps(k, u, at)
    ensures Sleeps(k', u, at)
  {
    assert k.delayed in {k'.delayed, k'.overflow} && k.overflow in {k'.delayed, k'.overflow};
  }

  // ----- the low task takes the mutex

  lemma LowTakes() returns (x: X)
    ensures x == TakeMutex(Booted(1, 1)) && XInv(x) && x.k.current == 1 && Quiet(x.k, 1) && x.phase == map[1 := I.Idle]
    ensures View(x) == I.V(map[1 := 1], map[1 := 1], map[1 := I.Idle], {1}, [], Some(1))
  {
    hide Boot, TakeMutex;
    var x0 := Booted(1, 1);
    BootXInv(1, 1);
    BootView(x0);
    OutrankedView(x0);
    x := TakeSound(x0);
    TakenView(x0, x);
    TakenQuiet(x0, x);
  }

  lemma TakenQuiet(x: X, x': X)
    requires x.k.current == 1 && Quiet(x.k, 1) && x.phase == map[1 := I.Idle] && x' == TakeMutex(x)
    ensures x'.k.current == 1 && Quiet(x'.k, 1) && x'.phase == map[1 := I.Idle]
  {
  }

  lemma LowHolds(a: Allowed) returns (x: X)
    ensures Reached(a, x) && x == TakeMutex(Booted(1, 1))
  {
    var x0 := Booted(1, 1);
    BootView(x0);
    assert AnyRun(a, x0, [], x0);
    x := TakeMutex(x0);
    ThenTake(a, x0, x);
  }

  lemma BootView(x: X)
    requires x == Booted(1, 1)
    ensures View(x) == I.V(map[1 := 1], map[1 := 1], map[1 := I.Idle], {1}, [], None)
    ensures x.k.current == 1 && Runs(x.k) && Quiet(x.k, 1) && NothingOutranks(x.k, 1)
  {
    BootTcb(x.k);
    assert View(x).prio == map[1 := 1] && View(x).base == map[1 := 1] && View(x).ready == {1};
  }

  lemma BootTcb(k: K)
    requires k == Boot(1, 1)
    ensures k.tcb == map[1 := NewTcb(1).(stateIn := Some(Ready(1)))] && k.current == 1 && Items(k, WAITERS) == []
  {
  }

  // ----- the high task comes and waits

  lemma HighComes(x: X) returns (x': X)
    requires XInv(x) && x.k.current == 1 && Quiet(x.k, 1) && x.phase == map[1 := I.Idle]
    requires View(x) == I.V(map[1 := 1], map[1 := 1], map[1 := I.Idle], {1}, [], Some(1))
    ensures 2 !in x.k.tcb && x' == X(CreateTask(x.k, 2, 5), x.holder, x.phase[2 := I.Idle])
    ensures XInv(x') && x'.k.current == 1 && Quiet(x'.k, 1) && Quiet(x'.k, 2)
    ensures View(x') == I.TwoTasks(1, I.Idle, I.Idle, {1, 2}, [])
  {
    assert 2 !in View(x).prio;
    var k' := CreateSound(x, 2, 5);
    x' := X(k', x.holder, x.phase[2 := I.Idle]);
    CreatedTcb(x.k, 2, 5);
    CreatedView(x, 2, 5, k');
    CreatedTwo(View(x));
  }

  lemma CreatedTwo(v: I.V)
    requires v == I.V(map[1 := 1], map[1 := 1], map[1 := I.Idle], {1}, [], Some(1))
    ensures I.Create(v, 2, 5) == I.TwoTasks(1, I.Idle, I.Idle, {1, 2}, [])
  {
    assert map[1 := 1][2 := 5] == map[1 := 1, 2 := 5];
    assert map[1 := I.Idle][2 := I.Idle] == map[1 := I.Idle, 2 := I.Idle];
  }

  lemma SwitchedToHigh(x: X) returns (k': K)
    requires XInv(x) && View(x) == I.TwoTasks(1, I.Idle, I.Idle, {1, 2}, [])
    ensures SomeReady(x.k) && k' == Switch(x.k) && XInv(x.(k := k')) && k'.current == 2 && Runs(k') && k'.tcb == x.k.tcb
    ensures View(x.(k := k')) == View(x)
  {
    hide View, Keyed, Sound;
    ReadyTwo(x);
    k' := SwitchSound(x);
    SwitchedTakers(x.k);
    var k1 := SwitchInv(x.k);
    ViewSame(x, k');
  }

  lemma ReadyTwo(x: X)
    requires View(x) == I.TwoTasks(1, I.Idle, I.Idle, {1, 2}, [])
    ensures 1 in x.k.tcb && 2 in x.k.tcb && IsReady(x.k, 2) && x.k.tcb[1].prio == 1 && x.k.tcb[2].prio == 5
    ensures forall t :: IsReady(x.k, t) ==> t == 1 || t == 2
  {
    assert 2 in View(x).ready && 1 in View(x).ready;
    forall t | IsReady(x.k, t) ensures t == 1 || t == 2 {
      assert t in View(x).ready;
    }
    assert x.k.tcb[1].prio == View(x).prio[1] && x.k.tcb[2].prio == View(x).prio[2];
  }

  lemma HighWaits(x: X) returns (x': X)
    requires XInv(x) && x.k.current == 2 && Runs(x.k) && Quiet(x.k, 1) && Quiet(x.k, 2)
    requires View(x) == I.TwoTasks(1, I.Idle, I.Idle, {1, 2}, []) && x.phase == map[1 := I.Idle, 2 := I.Idle] &&
             x.holder == Some(1)
    ensures 1 in x.k.tcb && x.k.tcb[2].prio <= MAX_PRIORITIES && x' == RequestMutex(x, 1)
    ensures XInv(x') && View(x') == I.TwoTasks(5, I.Idle, I.Trying(true), {1}, [2])
  {
    x' := RequestSound(x, 1);
    var x1 := RequestView(x, 1);
    var pos :| I.InOrder(View(x), 2, pos) && View(x1) == I.Block(View(x), 2, pos);
    HighBlocks(View(x), pos);
  }

  lemma HighBlocks(v: I.V, pos: nat)
    requires v == I.TwoTasks(1, I.Idle, I.Idle, {1, 2}, []) && I.WellFormed(v) && I.InOrder(v, 2, pos)
    ensures I.Block(v, 2, pos) == I.TwoTasks(5, I.Idle, I.Trying(true), {1}, [2])
  {
    assert InsertAt<Task>([], 0, 2) == [2];
    assert v.prio[1 := 5] == map[1 := 5, 2 := 5];
    assert v.phase[2 := I.Trying(true)] == map[1 := I.Idle, 2 := I.Trying(true)];
    assert {1, 2} - {2} == {1};
  }

  lemma HighSleepsOn(x: X, x': X)
    requires Inv(x.k) && Keyed(x) && x.k.current == 2 && Runs(x.k) && Quiet(x.k, 1) && Quiet(x.k, 2) &&
             x.holder == Some(1)
    requires x.k.tcb[2].prio <= MAX_PRIORITIES && x' == RequestMutex(x, 1)
    ensures Quiet(x'.k, 1) && Sleeps(x'.k, 2, x'.k.clock + 1) && x'.k.current == 2
  {
    hide Inv, Keyed, View;
    var k1 := InheritOk(x, 1);
    LentStillRuns(x, k1);
    var k2 := BlockOnInv(k1, 0, 1);
  }

  lemma LentStillRuns(x: X, k1: K)
    requires x.k.current == 2 && Runs(x.k) && Quiet(x.k, 1) && Quiet(x.k, 2) && 1 in x.k.tcb
    requires exists p :: Raised(x, 1, p, k1)
    ensures k1.current == 2 && Runs(k1) && Quiet(k1, 1) && Quiet(k1, 2)
  {
  }

  lemma LowHoldsHighWaits(a: Allowed) returns (x: X)
    ensures Reached(a, x) && XInv(x) && Scene(x, I.TwoTasks(5, I.Idle, I.Trying(true), {1}, [2]))
    ensures x.k.current == 1 && Runs(x.k) && x.k.current in x.phase && Quiet(x.k, 1) && Sleeps(x.k, 2, x.k.clock + 1)
  {
    hide Reached, Inv, Keyed, View, Switch;
    var x4 := HighIsAsleep(a);
    OnlyTwo(x4, 5);
    x := SwitchTo(x4, I.TwoTasks(5, I.Idle, I.Trying(true), {1}, [2]), 1);
    SwitchKeeps(x4, x);
    ThenSwitch(a, x4, x);
  }

  lemma HighIsAsleep(a: Allowed) returns (x: X)
    ensures Reached(a, x) && XInv(x) && View(x) == I.TwoTasks(5, I.Idle, I.Trying(true), {1}, [2])
    ensures x.k.current == 2 && Quiet(x.k, 1) && Sleeps(x.k, 2, x.k.clock + 1)
  {
    hide Reached, View, RequestMutex, Sleeps, Keyed;
    var x3 := HighRuns(a);
    OnlyTwo(x3, 1);
    x := HighWaits(x3);
    HighSleepsOn(x3, x);
    ThenRequest(a, x3, 1, x);
  }

  lemma SwitchKeeps(x: X, x': X)
    requires XInv(x) && SomeReady(x.k) && x' == x.(k := Switch(x.k))
    ensures XInv(x')
  {
    var k' := SwitchSound(x);
  }

  lemma HighRuns(a: Allowed) returns (x: X)
    ensures Reached(a, x) && XInv(x) && x.k.current == 2 && Runs(x.k) && Quiet(x.k, 1) && Quiet(x.k, 2)
    ensures View(x) == I.TwoTasks(1, I.Idle, I.Idle, {1, 2}, [])
  {
    hide Reached, Inv, Keyed, View, Switch, Tick, RequestMutex, LeaveMutex, DelayCurrent;
    var x1 := LowTakes();
    var y1 := LowHolds(a);
    var x2 := HighComes(x1);
    ThenCreate(a, x1, 2, 5, x2);
    OnlyTwo(x2, 1);
    var k' := SwitchedToHigh(x2);
    x := x2.(k := k');
    ThenSwitch(a, x2, x);
  }

  lemma OnlyTwo(x: X, p: nat)
    requires View(x).prio == map[1 := p, 2 := 5] && View(x).phase.Keys == {1, 2}
    ensures x.k.tcb.Keys == {1, 2} && x.phase == View(x).phase && x.holder == View(x).holder
  {
    assert View(x).prio.Keys == x.k.tcb.Keys;
  }

  // ----- now the holder asks for its own mutex

  lemma HolderAsks(x: X) returns (x': X)
    requires XInv(x) && Scene(x, I.TwoTasks(5, I.Idle, I.Trying(true), {1}, [2]))
    requires x.k.current == 1 && Runs(x.k) && x.k.current in x.phase && Quiet(x.k, 1) && Sleeps(x.k, 2, x.k.clock + 1)
    ensures AsksItself(x, 2, x') && Scene(x', I.TwoTasks(5, I.Trying(true), I.Trying(true), {}, [2, 1]))
    ensures Sleeps(x'.k, 2, x'.k.clock + 1) && Sleeps(x'.k, 1, x'.k.clock + 2) && x'.k.current == 1
  {
    assert x.holder == View(x).holder && x.phase == View(x).phase && PriorityOk(x.k.tcb[1]);
    var pos := TakersInOrder(x, 1);
    assert x.k.tcb[1].prio == View(x).prio[1] && x.k.tcb[1].base == View(x).base[1];
    assert View(x).prio[View(x).waiters[0]] == View(x).prio[1];
    assert pos == 1;
    x' := RequestMutex(x, 2);
    assert x'.k == BlockOn(x.k, 0, 2);
    var k2 := JoinEventOk(x.k, 0);
    JoinTakers(x, k2, pos);
    var k3 := DelayInv(k2, 2, true);
    var k4 := DelayCurrentOk(k2, 2, true);
    ViewParked(x.(k := k2), 2, true, k3);
    ParkedKeyed(x.(k := k2), 2, true, k3);
    HolderAsked(x, x.(k := k3), x');
  }

  lemma HolderAsked(x: X, x3: X, x': X)
    requires View(x) == I.TwoTasks(5, I.Idle, I.Trying(true), {1}, [2]) && Keyed(x3) && x.k.current == 1
    requires View(x3) == I.Sleep(View(x).(waiters := InsertAt([2], 1, 1)), 1)
    requires x' == x3.(phase := x.phase[1 := I.Trying(true)]) && x3.phase == x.phase && x3.holder == x.holder
    ensures Keyed(x') && View(x') == I.TwoTasks(5, I.Trying(true), I.Trying(true), {}, [2, 1])
  {
    hide Inv;
    assert InsertAt([2], 1, 1) == [2, 1];
    assert x'.phase == map[1 := I.Trying(true), 2 := I.Trying(true)];
    forall u | u in x'.k.tcb ensures KeyedTask(x'.k.tcb[u], x'.holder == Some(u)) {
      assert KeyedTask(x3.k.tcb[u], x3.holder == Some(u));
    }
  }

  // ----- both give up

  /** The running task's time is up while the holder waits for itself. */
  lemma TimesOut(x: X, v: I.V) returns (x1: X)
    requires Scene(x, v) && Runs(x.k) && x.k.current in x.phase && x.phase[x.k.current] == I.Trying(true) &&
             x.holder.Some?
    ensures x1 == ExpireMutex(x) && Scene(x1, v.(phase := v.phase[x.k.current := I.Leaving(true)]))
  {
    x1 := ExpireMutex(x);
    assert Keyed(x1);
  }

  /** The high task leaves the holder at 5: the holder's own request counts as a waiter of priority 5. */
  lemma HighLeaves(x: X) returns (x': X)
    requires Scene(x, I.TwoTasks(5, I.Trying(true), I.Leaving(true), {2}, [1])) && x.k.current == 2 && Runs(x.k)
    ensures HolderBase(x) && x' == LeaveMutex(x) && x'.k == x.k &&
            Scene(x', I.TwoTasks(5, I.Trying(true), I.Idle, {2}, [1]))
  {
    hide Inv, Keyed;
    HolderFacts(x, View(x));
    SceneWaiter(x, View(x));
    x' := LeaveMutex(x);
    assert x'.phase == map[1 := I.Trying(true), 2 := I.Idle];
    SameKeyed(x, x');
  }

  lemma SceneWaiter(x: X, v: I.V)
    requires Scene(x, v) && I.WellFormed(v)
    ensures HighestWaiter(x.k) == I.HighestWaiter(v)
  {
    HighestWaiterView(x);
  }

  lemma SameKeyed(x: X, x': X)
    requires Keyed(x) && x'.k == x.k && x'.holder == x.holder
    ensures Keyed(x')
  {
  }

  predicate HolderBase(x: X) {
    x.holder.Some? && x.holder.value in x.k.tcb && x.k.tcb[x.holder.value].base <= MAX_PRIORITIES &&
        x.k.current in x.phase
  }

  /** What the kernel knows of the holder. */
  lemma HolderFacts(x: X, v: I.V)
    requires Inv(x.k) && Keyed(x) && View(x) == v && v.prio == map[1 := 5, 2 := 5] && v.base == map[1 := 1, 2 := 5] &&
             v.holder == Some(1)
    ensures 1 in x.k.tcb && x.holder == Some(1) && x.phase == v.phase
    ensures x.k.tcb[1].prio == 5 && x.k.tcb[1].base == 1 && x.k.tcb[1].mutexesHeld == 1
  {
    assert 1 in v.prio;
    assert x.k.tcb[1].prio == v.prio[1] && x.k.tcb[1].base == v.base[1] && KeyedTask(x.k.tcb[1], true);
  }

  lemma HighSleeps(x: X) returns (x': X)
    requires Scene(x, I.TwoTasks(5, I.Trying(true), I.Idle, {2}, [1])) && x.k.current == 2 && Runs(x.k) &&
             Sleeps(x.k, 1, x.k.clock + 1)
    ensures x' == x.(k := DelayCurrent(x.k, 9, false)) && x'.k.current == 2
    ensures Scene(x', I.TwoTasks(5, I.Trying(true), I.Idle, {}, [1]))
    ensures Sleeps(x'.k, 1, x'.k.clock + 1) && Sleeps(x'.k, 2, x'.k.clock + 9)
  {
    assert x.phase == View(x).phase;
    var k' := DelayInv(x.k, 9, false);
    var k1 := DelayCurrentOk(x.k, 9, false);
    ViewParked(x, 9, false, k');
    ParkedKeyed(x, 9, false, k');
    x' := x.(k := k');
    assert {2} - {2} == {};
  }

  /** The holder, alone at priority 5, is taken back to 1, and the bit of 5 stays set. */
  lemma HolderLeaves(x: X) returns (x': X)
    requires Scene(x, I.TwoTasks(5, I.Leaving(true), I.Idle, {1}, [])) && x.k.current == 1 && Runs(x.k)
    ensures HolderBase(x) && x' == LeaveMutex(x) && !Bitmap(x'.k)
  {
    hide Keyed, Links;
    HolderFacts(x, View(x));
    HighestWaiterView(x);
    HolderAlone(x);
    BitmapAfterTimeout(x.k, 1, 0);
    x' := LeaveMutex(x);
  }

  lemma HolderAlone(x: X)
    requires Inv(x.k) && View(x).ready == {1} && 1 in x.k.tcb && x.k.tcb[1].prio == 5
    ensures Alone(x.k, 1)
  {
    assert 1 in View(x).ready;
    forall u ensures u in Items(x.k, Ready(5)) <==> u in [1] {
      DelayedMembers(x.k, 1);
      if u in Items(x.k, Ready(5)) {
        OnReadyList(x.k, Ready(5), u);
        assert u in View(x).ready;
      }
    }
    assert NoDup(Items(x.k, Ready(5)));
    SameItems(Items(x.k, Ready(5)), [1]);
  }

  lemma HighGivesUp(a: Allowed, x6: X) returns (x11: X)
    requires Reached(a, x6) && Scene(x6, I.TwoTasks(5, I.Trying(true), I.Trying(true), {}, [2, 1]))
    requires Sleeps(x6.k, 2, x6.k.clock + 1) && Sleeps(x6.k, 1, x6.k.clock + 2) && x6.k.current == 1
    ensures Reached(a, x11) && Scene(x11, I.TwoTasks(5, I.Trying(true), I.Idle, {}, [1])) && x11.k.current == 2
    ensures Sleeps(x11.k, 1, x11.k.clock + 1) && Sleeps(x11.k, 2, x11.k.clock + 9)
  {
    hide Reached, Inv, Keyed, View, Switch, Tick, RequestMutex, LeaveMutex, DelayCurrent;
    OnlyTwo(x6, 5);
    var x7 := TickWakes(x6, I.TwoTasks(5, I.Trying(true), I.Trying(true), {}, [2, 1]), 2, [1]);
    ThenTick(a, x6, x7);
    StillSleeps(x6.k, 2, x7.k, 1, x6.k.clock + 2);
    assert {} + {2} == {2};
    x11 := HighTimesOut(a, x7);
  }

  lemma HighTimesOut(a: Allowed, x7: X) returns (x11: X)
    requires Reached(a, x7) && Scene(x7, I.TwoTasks(5, I.Trying(true), I.Trying(true), {2}, [1]))
    requires x7.k.current == 1 && Sleeps(x7.k, 1, x7.k.clock + 1)
    ensures Reached(a, x11) && Scene(x11, I.TwoTasks(5, I.Trying(true), I.Idle, {}, [1])) && x11.k.current == 2
    ensures Sleeps(x11.k, 1, x11.k.clock + 1) && Sleeps(x11.k, 2, x11.k.clock + 9)
  {
    hide Reached, Inv, Keyed, View, Switch, Tick, RequestMutex, LeaveMutex, DelayCurrent;
    OnlyTwo(x7, 5);
    var x8 := SwitchTo(x7, I.TwoTasks(5, I.Trying(true), I.Trying(true), {2}, [1]), 2);
    ThenSwitch(a, x7, x8);
    var x9 := TimesOut(x8, I.TwoTasks(5, I.Trying(true), I.Trying(true), {2}, [1]));
    ThenExpire(a, x8, x9);
    assert map[1 := I.Trying(true), 2 := I.Trying(true)][2 := I.Leaving(true)] ==
           map[1 := I.Trying(true), 2 := I.Leaving(true)];
    var x10 := HighLeaves(x9);
    ThenLeave(a, x9, x10);
    x11 := HighSleeps(x10);
    OnlyTwo(x10, 5);
    ThenDelay(a, x10, 9, x11);
  }

  lemma HolderGivesUp(a: Allowed, x11: X) returns (x: X)
    requires Reached(a, x11) && Scene(x11, I.TwoTasks(5, I.Trying(true), I.Idle, {}, [1])) && x11.k.current == 2
    requires Sleeps(x11.k, 1, x11.k.clock + 1) && Sleeps(x11.k, 2, x11.k.clock + 9)
    ensures Reached(a, x) && !Bitmap(x.k)
  {
    hide Reached, Inv, Keyed, View, Switch, Tick, RequestMutex, LeaveMutex, DelayCurrent;
    OnlyTwo(x11, 5);
    var x12 := TickWakes(x11, I.TwoTasks(5, I.Trying(true), I.Idle, {}, [1]), 1, []);
    ThenTick(a, x11, x12);
    assert {} + {1} == {1};
    x := HolderTimesOut(a, x12);
  }

  lemma HolderTimesOut(a: Allowed, x12: X) returns (x: X)
    requires Reached(a, x12) && Scene(x12, I.TwoTasks(5, I.Trying(true), I.Idle, {1}, [])) && x12.k.current == 2
    ensures Reached(a, x) && !Bitmap(x.k)
  {
    hide Reached, Inv, Keyed, View, Switch, Tick, RequestMutex, LeaveMutex, DelayCurrent;
    OnlyTwo(x12, 5);
    var x13 := SwitchTo(x12, I.TwoTasks(5, I.Trying(true), I.Idle, {1}, []), 1);
    ThenSwitch(a, x12, x13);
    var x14 := TimesOut(x13, I.TwoTasks(5, I.Trying(true), I.Idle, {1}, []));
    ThenExpire(a, x13, x14);
    assert map[1 := I.Trying(true), 2 := I.Idle][1 := I.Leaving(true)] == map[1 := I.Leaving(true), 2 := I.Idle];
    x := HolderLeaves(x14);
    ThenLeave(a, x14, x);
  }

  /** The low task takes the mutex, the high task asks for it, the holder asks for it too; the high task
      times out and goes to sleep, and then the holder times out. */
  lemma StaleBitRun(a: Allowed) returns (x: X)
    requires a.selfTake
    ensures Reached(a, x) && !Bitmap(x.k)
  {
    hide Reached, Inv, Keyed, View, Switch, Tick, RequestMutex, LeaveMutex, DelayCurrent;
    var x5 := LowHoldsHighWaits(a);
    var x6 := HolderAsks(x5);
    ThenAskItself(a, x5, 2, x6);
    var x11 := HighGivesUp(a, x6);
    x := HolderGivesUp(a, x11);
  }
}

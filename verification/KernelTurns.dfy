/** When a ready task gets its turn: the ready lists as the kernel's steps move them, and how often a task of
    the highest priority can be passed over in a run. */
module KernelTurns {
  import opened Basics
  import opened Rings
  import opened ReadyTurns
  import opened KernelModel
  import opened KernelSteps
  import opened KernelApi
  import opened KernelInvariant
  import opened KernelRuns
  import opened KernelSwitches
  import opened KernelTheorems

  type Events = seq<Turn<Task>>

  function ReadyList(k: K, p: nat): Ring<Task> {
    ListOf(k, Ready(p))
  }

  /** Off the list, and perhaps on again. */
  function Moves(u: Task, joins: bool): Events {
    [Leaves(u)] + if joins then [Joins(u)] else []
  }

  // ----- putting events together

  lemma {:induction false} AllOfBoth(r: Ring<Task>, es: Events, es': Events)
    ensures AfterAll(r, es + es') == AfterAll(AfterAll(r, es), es')
    ensures Passed(es + es') == Passed(es) + Passed(es')
    decreases |es|
  {
    if es == [] {
      assert es + es' == es';
    } else {
      assert (es + es')[1..] == es[1..] + es';
      AllOfBoth(After(r, es[0]), es[1..], es');
    }
  }

  lemma {:induction false} OverBoth(r: Ring<Task>, es: Events, es': Events, t: Task)
    requires PassesOver(r, es, t) && PassesOver(AfterAll(r, es), es', t)
    ensures PassesOver(r, es + es', t)
    decreases |es|
  {
    hide PassesOver, AfterAll, After, Elsewhere;
    FrontOf(r, es, t);
    if es == [] {
      assert es + es' == es';
    } else {
      OverBoth(After(r, es[0]), es[1..], es', t);
      FrontOf(r, es + es', t);
      assert (es + es')[1..] == es[1..] + es' && (es + es')[0] == es[0];
    }
  }

  lemma FrontOf(r: Ring<Task>, es: Events, t: Task)
    ensures AfterAll(r, es) == if es == [] then r else AfterAll(After(r, es[0]), es[1..])
    ensures PassesOver(r, es, t) <==>
            t in r.items && (es == [] || (Elsewhere(r, es[0], t) && PassesOver(After(r, es[0]), es[1..], t)))
  {
  }

  lemma MovesAfter(r: Ring<Task>, u: Task, joins: bool)
    ensures AfterAll(r, Moves(u, joins)) == if joins then Append(After(r, Leaves(u)), u) else After(r, Leaves(u))
    ensures Passed(Moves(u, joins)) == 0
  {
    var es := Moves(u, joins);
    var r1 := After(r, es[0]);
    if joins {
      assert es[1..] == [Joins(u)] && [Joins(u)][1..] == [];
      assert AfterAll(r1, [Joins(u)]) == AfterAll(After(r1, Joins(u)), []);
      assert Passed([Joins(u)]) == Passed([Joins(u)][1..]);
    } else {
      assert es[1..] == [];
    }
  }

  lemma MovesPassOver(r: Ring<Task>, u: Task, joins: bool, t: Task)
    requires NoDup(r.items) && t in r.items && u != t
    ensures PassesOver(r, Moves(u, joins), t)
  {
    var es := Moves(u, joins);
    var r1 := After(r, Leaves(u));
    if u in r.items {
      DropAtMembers(r.items, IndexOf(r.items, u));
    }
    assert t in r1.items && u !in r1.items;
    if joins {
      assert es[1..] == [Joins(u)] && [Joins(u)][1..] == [];
      InsertAtMembers(r1.items, if r1.cursor > 0 then r1.cursor - 1 else |r1.items|, u);
      assert PassesOver(After(r1, Joins(u)), [], t);
      assert PassesOver(r1, [Joins(u)], t);
    } else {
      assert es[1..] == [];
      assert PassesOver(r1, [], t);
    }
  }

  // ----- what the list operations do to a ready list

  lemma TakeTurns(k: K, kind: Kind, u: Task, p: nat)
    requires Links(k) && u in k.tcb
    ensures ReadyList(Take(k, kind, u), p) == if kind.State? then After(ReadyList(k, p), Leaves(u)) else ReadyList(k, p)
  {
    assert Linked(k, u, k.tcb[u].Container(kind), kind);
    if u in Items(k, Ready(p)) {
      assert k.tcb[u].Container(KindOf(Ready(p))) == Some(Ready(p));
    }
  }

  lemma AddReadyTurns(k: K, u: Task, p: nat)
    requires u in k.tcb
    ensures ReadyList(AddReady(k, u), p) == if k.tcb[u].prio == p then Append(ReadyList(k, p), u) else ReadyList(k, p)
  {
  }

  lemma RereadyTurns(k: K, u: Task, p: nat)
    requires Links(k) && u in k.tcb
    ensures ReadyList(Reready(k, u), p) == AfterAll(ReadyList(k, p), Moves(u, k.tcb[u].prio == p))
  {
    TakeTurns(k, State, u, p);
    AddReadyTurns(Take(k, State, u), u, p);
    MovesAfter(ReadyList(k, p), u, k.tcb[u].prio == p);
  }

  lemma RouseTurns(k: K, u: Task, first: Kind, p: nat)
    requires Links(k) && u in k.tcb
    ensures ReadyList(Rouse(k, u, first), p) == AfterAll(ReadyList(k, p), Moves(u, k.tcb[u].prio == p))
  {
    TakeLinks(k, first, u);
    TakeTurns(k, first, u, p);
    TakeTurns(Take(k, first, u), Other(first), u, p);
    AddReadyTurns(Take(Take(k, first, u), Other(first), u), u, p);
    MovesAfter(ReadyList(k, p), u, k.tcb[u].prio == p);
  }

  lemma UnreadyTurns(k: K, u: Task, p: nat)
    requires Links(k) && u in k.tcb
    ensures ReadyList(Unready(k, u), p) == AfterAll(ReadyList(k, p), Moves(u, false))
    ensures ReadyList(Leave(k, u), p) == AfterAll(ReadyList(k, p), Moves(u, false))
  {
    TakeTurns(k, State, u, p);
    MovesAfter(ReadyList(k, p), u, false);
  }

  // ----- the steps

  /** On the list of priority p nothing has happened, or only u has moved. */
  ghost predicate OnlyMoves(k: K, u: Task, p: nat, k': K) {
    ReadyList(k', p) == ReadyList(k, p) || exists joins ::
        ReadyList(k', p) == AfterAll(ReadyList(k, p), Moves(u, joins))
  }

  lemma CreateTurns(k: K, u: Task, priority: nat, p: nat)
    requires Links(k) && u !in k.tcb
    ensures OnlyMoves(k, u, p, CreateTask(k, u, priority)) && u !in Items(k, Ready(p))
    ensures p == priority < MAX_PRIORITIES ==> ReadyList(CreateTask(k, u, priority), p) == Append(ReadyList(k, p), u)
  {
    AddReadyTurns(Enrol(k, u, NewTcb(priority)), u, p);
    assert u !in Items(k, Ready(p));
    MovesAfter(ReadyList(k, p), u, true);
  }

  lemma DeleteTurns(k: K, u: Task, p: nat)
    requires Links(k) && u in k.tcb
    ensures OnlyMoves(k, u, p, DeleteTask(k, u)) && OnlyMoves(k, u, p, SuspendTask(k, u))
    ensures ReadyList(SuspendTask(k, u), p) == AfterAll(ReadyList(k, p), Moves(u, false))
  {
    var k1 := Leave(k, u);
    UnreadyTurns(k, u, p);
    TakeLinks(k, State, u);
    SameTasks(Take(k, State, u), k1);
    TakeTurns(k1, EventItem, u, p);
    assert ReadyList(Take(k1, EventItem, u), p) == AfterAll(ReadyList(k, p), Moves(u, false));
    hide Leave, Take;
  }

  lemma SetPriorityTurns(k: K, u: Task, newPriority: nat, p: nat)
    requires Links(k) && u in k.tcb && k.tcb[u].base <= MAX_PRIORITIES
    ensures OnlyMoves(k, u, p, SetPriority(k, u, newPriority))
  {
    if k.tcb[u].stateIn == Some(Ready(k.tcb[u].prio)) {
      forall prio, base, value ensures OnlyMoves(k, u, p, Reprioritise(k, u, prio, base, value)) {
        ReprioritiseTurns(k, u, prio, base, value, p);
      }
    }
  }

  lemma ReprioritiseTurns(k: K, u: Task, prio: nat, base: nat, value: nat, p: nat)
    requires Links(k) && u in k.tcb && k.tcb[u].stateIn == Some(Ready(k.tcb[u].prio))
    ensures ReadyList(Reprioritise(k, u, prio, base, value), p) == AfterAll(ReadyList(k, p), Moves(u, prio == p))
  {
    UnreadyTurns(k, u, p);
    var k1 := Unready(k, u);
    assert u in k1.tcb;
    hide Unready, Links;
    var k2 := Relabel(k1, u, k1.tcb[u].(prio := prio, base := base, eventValue := value));
    AddReadyTurns(k2, u, p);
    MovesAfter(ReadyList(k, p), u, false);
    MovesAfter(ReadyList(k, p), u, prio == p);
  }

  lemma ResumeTurns(k: K, u: Task, p: nat)
    requires Links(k) && u in k.tcb
    ensures OnlyMoves(k, u, p, ResumeTask(k, u)) && OnlyMoves(k, u, p, ResumeFromISR(k, u))
  {
    RereadyTurns(k, u, p);
  }

  lemma AbortTurns(k: K, u: Task, p: nat)
    requires Links(k) && u in k.tcb
    ensures OnlyMoves(k, u, p, AbortDelay(k, u))
  {
    var k1 := Relabel(k, u, k.tcb[u].(delayAborted := k.tcb[u].delayAborted || k.tcb[u].eventIn.Some?));
    LinksFrame(k, k1);
    RouseTurns(k1, u, State, p);
  }

  lemma NotifyTurns(k: K, u: Task, p: nat)
    requires Links(k) && u in k.tcb
    ensures OnlyMoves(k, u, p, NotifyTask(k, u)) && OnlyMoves(k, u, p, NotifyFromISR(k, u))
  {
    var k1 := Relabel(k, u, k.tcb[u].(notify := Received));
    LinksFrame(k, k1);
    RereadyTurns(k1, u, p);
  }

  lemma DelayTurns(k: K, ticks: nat, indefinitely: bool, p: nat)
    requires Links(k) && IsDelayList(k.delayed) && IsDelayList(k.overflow)
    ensures ReadyList(DelayCurrent(k, ticks, indefinitely), p) == AfterAll(ReadyList(k, p), Moves(k.current, false))
  {
    var u := k.current;
    var k1 := k.(tcb := k.tcb[u := k.tcb[u].(delayAborted := false)]);
    LinksFrame(k, k1);
    UnreadyTurns(k1, u, p);
    assert u in Unready(k1, u).tcb;
    FileTurns(Unready(k1, u), u, ticks, indefinitely, p);
    hide Unready, KernelSteps.File, Links;
  }

  lemma FileTurns(k: K, u: Task, ticks: nat, indefinitely: bool, p: nat)
    requires u in k.tcb && IsDelayList(k.delayed) && IsDelayList(k.overflow)
    ensures ReadyList(KernelSteps.File(k, u, ticks, indefinitely), p) == ReadyList(k, p)
  {
  }

  lemma BlockTurns(k: K, q: nat, ticks: nat, p: nat)
    requires Links(k) && IsDelayList(k.delayed) && IsDelayList(k.overflow) && k.tcb[k.current].eventIn.None?
    ensures ReadyList(BlockOn(k, q, ticks), p) == AfterAll(ReadyList(k, p), Moves(k.current, false))
  {
    PutLinks(k, k.current, Event(q), InsertPos(Keys(k, Event(q)), k.tcb[k.current].Key(EventItem)));
    DelayTurns(InsertInto(k, k.current, Event(q)), ticks, true, p);
  }

  lemma WakeTurns(k: K, q: nat, p: nat)
    requires Links(k) && Items(k, Event(q)) != []
    ensures OnlyMoves(k, Head(k, Event(q)), p, WakeFrom(k, q))
  {
    HeadLinked(k, Event(q));
    RouseTurns(k, Head(k, Event(q)), EventItem, p);
    TakeTurns(k, EventItem, Head(k, Event(q)), p);
  }

  lemma CleanUpTurns(k: K, p: nat)
    requires Links(k) && Items(k, WaitingTermination) != []
    ensures OnlyMoves(k, Head(k, WaitingTermination), p, CleanUp(k))
  {
    HeadLinked(k, WaitingTermination);
    TakeTurns(k, State, Head(k, WaitingTermination), p);
    MovesAfter(ReadyList(k, p), Head(k, WaitingTermination), false);
  }

  // ----- steps that move several tasks

  /** The events e on the list of priority p take k to k', and none of them serves t or is about it. */
  ghost predicate Around(k: K, k': K, p: nat, es: Events, t: Task) {
    ReadyList(k', p) == AfterAll(ReadyList(k, p), es) && PassesOver(ReadyList(k, p), es, t)
  }

  lemma AroundBoth(k: K, k1: K, k2: K, p: nat, es: Events, es': Events, t: Task)
    requires Around(k, k1, p, es, t) && Around(k1, k2, p, es', t)
    ensures Around(k, k2, p, es + es', t) && Passed(es + es') == Passed(es) + Passed(es')
  {
    AllOfBoth(ReadyList(k, p), es, es');
    OverBoth(ReadyList(k, p), es, es', t);
  }

  /** A stretch in which nobody is served, and no task is created. */
  ghost predicate Unserved(k: K, k': K, p: nat, es: Events, t: Task) {
    Around(k, k', p, es, t) && Passed(es) == 0 && Known(k', es) && k'.tcb.Keys == k.tcb.Keys
  }

  lemma UnservedBoth(k: K, k1: K, k2: K, p: nat, es: Events, es': Events, t: Task)
    requires Unserved(k, k1, p, es, t) && Unserved(k1, k2, p, es', t)
    ensures Unserved(k, k2, p, es + es', t)
  {
    hide Around;
    AroundBoth(k, k1, k2, p, es, es', t);
  }

  lemma NothingAround(k: K, k': K, p: nat, t: Task)
    requires ReadyList(k', p) == ReadyList(k, p) && t in Items(k, Ready(p)) && k'.tcb.Keys == k.tcb.Keys
    ensures Unserved(k, k', p, [], t)
  {
  }

  /** Whoever joins is a task of the kernel. */
  predicate Known(k: K, es: Events) {
    forall i :: 0 <= i < |es| && es[i].Joins? ==> es[i].item in k.tcb
  }

  lemma MovesAround(k: K, u: Task, joins: bool, k': K, p: nat, t: Task)
    requires Links(k) && t in Items(k, Ready(p)) && u != t && u in k'.tcb
    requires ReadyList(k', p) == AfterAll(ReadyList(k, p), Moves(u, joins))
    ensures Around(k, k', p, Moves(u, joins), t) && Known(k', Moves(u, joins)) && Passed(Moves(u, joins)) == 0
  {
    assert NoDup(Items(k, Ready(p)));
    MovesPassOver(ReadyList(k, p), u, joins, t);
    MovesAfter(ReadyList(k, p), u, joins);
  }

  lemma RousedUnserved(k: K, u: Task, first: Kind, k1: K, p: nat, t: Task) returns (es: Events)
    requires Links(k) && Links(k1) && u in k.tcb && u != t && t in Items(k, Ready(p))
    requires k1 == Rouse(k, u, first) && Roused(k, u, k1)
    ensures Unserved(k, k1, p, es, t) && t in Items(k1, Ready(p))
  {
    es := Moves(u, k.tcb[u].prio == p);
    RouseTurns(k, u, first, p);
    StillListed(k, u, k1, p, t);
    MovesAround(k, u, k.tcb[u].prio == p, k1, p, t);
  }

  lemma StillListed(k: K, u: Task, k1: K, p: nat, t: Task)
    requires Links(k) && Links(k1) && u in k.tcb && u != t && t in Items(k, Ready(p)) && Roused(k, u, k1)
    ensures t in Items(k1, Ready(p)) && k1.tcb.Keys == k.tcb.Keys
  {
    assert k.tcb[t].Container(KindOf(Ready(p))) == Some(Ready(p));
    DelayedMembers(k1, t);
  }

  /** The wake-up loop readies none that is ready. */
  lemma {:induction false} WakeDueTurns(k: K, ts: seq<Task>, p: nat, t: Task) returns (es: Events)
    requires Scannable(k, ts) && t in Items(k, Ready(p))
    ensures Unserved(k, WakeDue(k, ts), p, es, t)
    decreases |ts|
  {
    if ts == [] || k.tick < k.tcb[ts[0]].wake {
      es := [];
      NothingAround(k, WakeDue(k, ts), p, t);
    } else {
      hide Unserved;
      var k1 := ScanNext(k, ts);
      NotDelayed(k, ts, p, t);
      var es1 := RousedUnserved(k, ts[0], State, k1, p, t);
      var es2 := WakeDueTurns(k1, ts[1..], p, t);
      es := es1 + es2;
      UnservedBoth(k, k1, WakeDue(k, ts), p, es1, es2, t);
    }
  }

  lemma NotDelayed(k: K, ts: seq<Task>, p: nat, t: Task)
    requires Links(k) && ScanOrder(k, ts) && ts != [] && t in Items(k, Ready(p))
    ensures ts[0] != t && ts[0] in k.tcb
  {
    assert ts[0] in ts;
    assert k.tcb[t].Container(KindOf(Ready(p))) == Some(Ready(p));
  }

  lemma ProcessTickTurns(k: K, p: nat, t: Task) returns (es: Events)
    requires Inv(k) && t in Items(k, Ready(p))
    ensures Unserved(k, ProcessTick(k), p, es, t)
  {
    var k1 := AdvanceOk(k);
    NothingAround(k, k1, p, t);
    if k1.tick >= k1.nextUnblock {
      var es2 := WakeDueTurns(k1, Items(k1, k1.delayed), p, t);
      UnservedBoth(k, k1, ProcessTick(k), p, [], es2, t);
      es := [] + es2;
    } else {
      es := [];
    }
  }

  lemma ReadyStaysListed(k: K, n: nat, k': K, p: nat, t: Task)
    requires Inv(k) && Inv(k') && TickedBetween(k, n, k') && t in Items(k, Ready(p))
    ensures t in Items(k', Ready(p))
  {
    OnReadyList(k, Ready(p), t);
    assert k'.tcb[t] == TickedTcb(k, t, k'.clock);
    DelayedMembers(k', t);
  }

  lemma {:induction false} TickNTurns(k: K, n: nat, p: nat, t: Task) returns (es: Events)
    requires Inv(k) && t in Items(k, Ready(p))
    ensures Unserved(k, TickN(k, n), p, es, t)
    decreases n
  {
    hide Inv, ProcessTick, Ticked, Unserved, TickN;
    TickNFront(k, n);
    if n == 0 {
      es := [];
      NothingAround(k, k, p, t);
    } else {
      var es1 := ProcessTickTurns(k, p, t);
      var k1 := ProcessTickInv(k);
      ReadyStaysListed(k, 1, k1, p, t);
      var es2 := TickNTurns(k1, n - 1, p, t);
      es := es1 + es2;
      UnservedBoth(k, k1, TickN(k1, n - 1), p, es1, es2, t);
    }
  }

  lemma TickNFront(k: K, n: nat)
    ensures TickN(k, n) == if n == 0 then k else TickN(ProcessTick(k), n - 1)
  {
  }

  lemma {:induction false} DrainTurns(k: K, ts: seq<Task>, p: nat, t: Task) returns (es: Events)
    requires Inv(k) && ts == Items(k, PendingReady) && t in Items(k, Ready(p)) && t !in ts
    ensures Unserved(k, Drain(k, ts), p, es, t)
    decreases |ts|
  {
    if ts == [] {
      es := [];
      NothingAround(k, k, p, t);
    } else {
      hide Inv, KernelSteps.Rouse, Roused, Unserved;
      assert ts[0] in ts && t !in ts[1..];
      var k1 := DrainStep(k, ts);
      BothLinked(k, k1);
      var es1 := RousedUnserved(k, ts[0], EventItem, k1, p, t);
      var es2 := DrainTurns(k1, ts[1..], p, t);
      es := es1 + es2;
      UnservedBoth(k, k1, Drain(k1, ts[1..]), p, es1, es2, t);
    }
  }

  lemma BothLinked(k: K, k1: K)
    requires Inv(k) && Inv(k1)
    ensures Links(k) && Links(k1)
  {
  }

  lemma ResumeAllTurns(k: K, p: nat, t: Task) returns (es: Events)
    requires Inv(k) && k.suspended > 0 && t in Items(k, Ready(p)) && t !in Items(k, PendingReady)
    ensures Unserved(k, ResumeAll(k), p, es, t)
  {
    var k1 := Resuspended(k, k.suspended - 1, k.pended);
    NothingAround(k, k1, p, t);
    if k1.suspended > 0 || k1.numTasks == 0 {
      es := [];
    } else {
      var es2 := RestartTurns(k1, p, t);
      es := [] + es2;
      UnservedBoth(k, k1, ResumeAll(k), p, [], es2, t);
    }
  }

  lemma RestartTurns(k: K, p: nat, t: Task) returns (es: Events)
    requires Inv(k) && t in Items(k, Ready(p)) && t !in Items(k, PendingReady)
    ensures Unserved(k, CatchUpPended(MovePending(k)), p, es, t)
  {
    hide Inv, Drained;
    var ts := Items(k, PendingReady);
    var es1 := DrainTurns(k, ts, p, t);
    var k2 := MovePendingInv(k);
    StillReady(k, ts, k2, p, t);
    assert Unserved(k, k2, p, es1, t);
    var es2 := TickNTurns(k2, k2.pended, p, t);
    es := es1 + es2;
    UnservedBoth(k, k2, TickN(k2, k2.pended), p, es1, es2, t);
  }

  lemma StillReady(k: K, ts: seq<Task>, k': K, p: nat, t: Task)
    requires Inv(k) && Inv(k') && t in Items(k, Ready(p)) && t !in ts
    requires Drained(k, ts, k'.(nextUnblock := k.nextUnblock))
    ensures t in Items(k', Ready(p)) && k'.tcb.Keys == k.tcb.Keys
  {
    OnReadyList(k, Ready(p), t);
    DelayedMembers(k', t);
  }

  // ----- any step

  /** The switch goes to a task of priority p. */
  ghost predicate ServesFrom(k: K, s: Step, p: nat) {
    s.SwitchContext? && k.suspended == 0 && (exists b :: b in k.top && b < MAX_PRIORITIES) && TopList(k) == Ready(p)
  }

  ghost predicate Chooses(k: K, s: Step, t: Task)
    requires Enabled(k, s)
  {
    s.SwitchContext? && k.suspended == 0 && Do(k, s).current == t
  }

  lemma SwitchTurns(k: K, p: nat, t: Task) returns (es: Events)
    requires Inv(k) && Enabled(k, SwitchContext) && IsReady(k, t) && k.tcb[t].prio == p && !Chooses(k, SwitchContext, t)
    ensures Around(k, Switch(k), p, es, t) && Known(Switch(k), es)
    ensures Passed(es) == if ServesFrom(k, SwitchContext, p) then 1 else 0
  {
    var serves := SwitchFacts(k, p, t);
    hide Inv, Switch;
    es := if serves then [Serves] else [];
    if serves {
      ServesOnce(ReadyList(k, p), t);
    }
  }

  lemma SwitchFacts(k: K, p: nat, t: Task) returns (serves: bool)
    requires Inv(k) && Enabled(k, SwitchContext) && IsReady(k, t) && k.tcb[t].prio == p && !Chooses(k, SwitchContext, t)
    ensures t in Items(k, Ready(p)) && (serves <==> ServesFrom(k, SwitchContext, p)) && Switch(k).tcb == k.tcb
    ensures ReadyList(Switch(k), p) == if serves then Advance(ReadyList(k, p)) else ReadyList(k, p)
    ensures serves ==> ReadyList(k, p).items != [] && Visits(ReadyList(k, p))[0] != t
  {
    hide Links, Epochs, NoneOverdue, Priorities, Bitmap, Advance;
    DelayedMembers(k, t);
    serves := false;
    if k.suspended == 0 {
      SomeBit(k);
      var k' := SwitchedOnce(k);
      OtherLists(k, p);
      hide Inv, Switch;
      serves := TopList(k) == Ready(p);
      if serves {
        AdvanceRotates(ReadyList(k, p));
      }
    }
  }

  lemma OtherLists(k: K, p: nat)
    requires k.suspended == 0 && exists b :: b in k.top && b < MAX_PRIORITIES
    ensures TopList(k) != Ready(p) ==> ReadyList(Switch(k), p) == ReadyList(k, p)
  {
  }

  lemma ServesOnce(r: Ring<Task>, t: Task)
    requires r.items != [] && t in r.items && Visits(r)[0] != t
    ensures PassesOver(r, [Serves], t) && AfterAll(r, [Serves]) == Advance(r) && Passed<Task>([Serves]) == 1
  {
    var es: Events := [Serves];
    assert es[1..] == [];
    assert PassesOver(Advance(r), [], t);
    assert AfterAll(After(r, Serves), []) == Advance(r);
  }

  ghost predicate StepTurned(k: K, s: Step, p: nat, es: Events, t: Task)
    requires Enabled(k, s)
  {
    && Around(k, Do(k, s), p, es, t) && Known(Do(k, s), es)
    && Passed(es) == if ServesFrom(k, s, p) then 1 else 0
  }

  lemma MovedTurns(k: K, s: Step, u: Task, p: nat, t: Task) returns (es: Events)
    requires Links(k) && Enabled(k, s) && !s.SwitchContext? && t in Items(k, Ready(p)) && u != t
    requires OnlyMoves(k, u, p, Do(k, s)) && (u in Do(k, s).tcb || u !in Items(Do(k, s), Ready(p)))
    ensures StepTurned(k, s, p, es, t)
  {
    es := MovedAround(k, u, p, Do(k, s), t);
    hide Do, Around, Known, Passed, OnlyMoves;
  }

  lemma MovedAround(k: K, u: Task, p: nat, k': K, t: Task) returns (es: Events)
    requires Links(k) && t in Items(k, Ready(p)) && u != t
    requires OnlyMoves(k, u, p, k') && (u in k'.tcb || u !in Items(k', Ready(p)))
    ensures Around(k, k', p, es, t) && Known(k', es) && Passed(es) == 0
  {
    assert NoDup(Items(k, Ready(p)));
    hide Links;
    if ReadyList(k', p) == ReadyList(k, p) {
      es := [];
    } else {
      var joins :| ReadyList(k', p) == AfterAll(ReadyList(k, p), Moves(u, joins));
      es := Moves(u, joins);
      MovesPassOver(ReadyList(k, p), u, joins, t);
      MovedOn(ReadyList(k, p), u, joins);
    }
  }

  lemma MovedOn(r: Ring<Task>, u: Task, joins: bool)
    ensures joins ==> u in AfterAll(r, Moves(u, joins)).items
    ensures Passed(Moves(u, joins)) == 0
  {
    MovesAfter(r, u, joins);
    if joins {
      var r1 := After(r, Leaves(u));
      var k := if r1.cursor > 0 then r1.cursor - 1 else |r1.items|;
      assert Append(r1, u).items[k] == u;
    }
  }

  lemma LocalTurns(k: K, s: Step, p: nat) returns (u: Task)
    requires Inv(k) && Enabled(k, s) && (IsLocal(s) || s.Create? || s.Delete? || s.CleanUpOne?)
    ensures OnlyMoves(k, u, p, Do(k, s)) && Concerns(k, s, u)
  {
    hide Bitmap, NoneOverdue, Priorities, OnlyMoves, CreateTask, DeleteTask, SuspendTask, SetPriority, ResumeTask,
        ResumeFromISR, AbortDelay, NotifyTask, NotifyFromISR;
    match s
    case Create(t, priority) => u := t; CreateTurns(k, t, priority, p);
    case Delete(t) => u := t; DeleteTurns(k, t, p);
    case SetTaskPriority(t, priority) => u := t; PriorityTurns(k, t, priority, p);
    case Suspend(t) => u := t; DeleteTurns(k, t, p);
    case Resume(t, _) => u := t; ResumeTurns(k, t, p);
    case Abort(t) => u := t; AbortTurns(k, t, p);
    case NotifyOne(t, _) => u := t; NotifyTurns(k, t, p);
    case _ => u := WaitingTurns(k, s, p);
  }

  lemma PriorityTurns(k: K, u: Task, priority: nat, p: nat)
    requires Inv(k) && u in k.tcb
    ensures OnlyMoves(k, u, p, SetPriority(k, u, priority))
  {
    assert PriorityOk(k.tcb[u]);
    SetPriorityTurns(k, u, priority, p);
  }

  lemma WaitingTurns(k: K, s: Step, p: nat) returns (u: Task)
    requires Inv(k) && Enabled(k, s) && (s.Delay? || s.Block? || s.Wake? || s.Wait? || s.CleanUpOne?)
    ensures OnlyMoves(k, u, p, Do(k, s)) && Concerns(k, s, u)
  {
    hide Bitmap, NoneOverdue, Priorities, OnlyMoves, WakeFrom, CleanUp;
    match s
    case Wake(q) => u := Head(k, Event(q)); WakeTurns(k, q, p);
    case CleanUpOne => u := Head(k, WaitingTermination); CleanUpTurns(k, p);
    case _ => u := k.current; SleepTurns(k, s, p);
  }

  lemma SleepTurns(k: K, s: Step, p: nat)
    requires Inv(k) && Enabled(k, s) && (s.Delay? || s.Block? || s.Wait?)
    ensures OnlyMoves(k, k.current, p, Do(k, s))
  {
    hide Bitmap, NoneOverdue, Priorities, DelayCurrent, BlockOn, AfterAll, Moves;
    match s
    case Delay(ticks, indefinitely) => DelayTurns(k, ticks, indefinitely, p);
    case Block(q, ticks) => BlockTurns(k, q, ticks, p);
    case Wait(begin) =>
  }

  /** Every step moves the ready list of a task that it neither chooses nor is about by a sequence of events, one
      of them a service if and only if the step is a switch to a task of that priority. */
  lemma StepTurns(k: K, s: Step, t: Task) returns (es: Events, k': K)
    requires Inv(k) && Enabled(k, s) && IsReady(k, t) && !Concerns(k, s, t) && !Chooses(k, s, t)
    ensures k' == Do(k, s) && Inv(k') && IsReady(k', t) && k'.tcb[t] == k.tcb[t]
    ensures StepTurned(k, s, k.tcb[t].prio, es, t)
  {
    hide Inv, Around, Unserved, OnlyMoves, Passed, Known;
    var p := k.tcb[t].prio;
    k' := StepInv(k, s);
    StaysReady(k, s, k', t);
    if s.SwitchContext? {
      es := SwitchTurns(k, p, t);
    } else if s.TickInterrupt? || s.ResumeScheduler? {
      es := ManyTurns(k, s, t);
    } else if s.SuspendScheduler? || s.CatchUp? {
      es := [];
      NothingAround(k, k', p, t);
      UnservedStep(k, s, p, es, t);
    } else {
      var u := LocalTurns(k, s, p);
      OnlyKnown(k, k', u, p, t);
      es := MovedTurns(k, s, u, p, t);
    }
  }

  lemma StaysReady(k: K, s: Step, k': K, t: Task)
    requires Inv(k) && Inv(k') && IsReady(k, t) && !Concerns(k, s, t) && Effect(k, s, k')
    ensures IsReady(k', t) && k'.tcb[t] == k.tcb[t] && t in Items(k, Ready(k.tcb[t].prio))
  {
    DelayedMembers(k, t);
  }

  lemma OnlyKnown(k: K, k': K, u: Task, p: nat, t: Task)
    requires Inv(k) && Inv(k')
    ensures Links(k) && (u in k'.tcb || u !in Items(k', Ready(p)))
  {
    hide Bitmap, Epochs, NoneOverdue, Priorities;
  }

  lemma UnservedStep(k: K, s: Step, p: nat, es: Events, t: Task)
    requires Enabled(k, s) && !s.SwitchContext? && Unserved(k, Do(k, s), p, es, t)
    ensures StepTurned(k, s, p, es, t)
  {
  }

  lemma ManyTurns(k: K, s: Step, t: Task) returns (es: Events)
    requires Inv(k) && Enabled(k, s) && IsReady(k, t) && !Concerns(k, s, t) && (s.TickInterrupt? || s.ResumeScheduler?)
    ensures StepTurned(k, s, k.tcb[t].prio, es, t)
  {
    var p := k.tcb[t].prio;
    DelayedMembers(k, t);
    hide Inv, Unserved, ResumeAll, ProcessTick;
    if s.ResumeScheduler? {
      es := ResumeAllTurns(k, p, t);
    } else if k.suspended == 0 {
      es := ProcessTickTurns(k, p, t);
    } else {
      es := [];
      NothingAround(k, Do(k, s), p, t);
    }
    UnservedStep(k, s, p, es, t);
  }

  // ----- runs

  /** No switch of the run goes to t. */
  ghost predicate NotChosen(k: K, steps: seq<Step>, t: Task)
    decreases |steps|
  {
    steps == [] || (Enabled(k, steps[0]) && !Chooses(k, steps[0], t) && NotChosen(Do(k, steps[0]), steps[1..], t))
  }

  /** How many switches of the run go to tasks of priority p. */
  ghost function SwitchesAt(k: K, steps: seq<Step>, p: nat): nat
    decreases |steps|
  {
    if steps == [] || !Enabled(k, steps[0]) then 0
    else (if ServesFrom(k, steps[0], p) then 1 else 0) + SwitchesAt(Do(k, steps[0]), steps[1..], p)
  }

  /** A run in which a ready task waits for its turn. */
  ghost predicate PassedOver(k: K, steps: seq<Step>, k': K, t: Task) {
    Run(k, steps, k') && Undisturbed(k, steps, t) && NotChosen(k, steps, t)
  }

  /** The tasks there are in the course of the run. */
  ghost predicate TasksFrom(k: K, steps: seq<Step>, all: set<Task>)
    decreases |steps|
  {
    k.tcb.Keys <= all && (steps == [] || (Enabled(k, steps[0]) && TasksFrom(Do(k, steps[0]), steps[1..], all)))
  }

  lemma {:induction false} RunTurns(k: K, steps: seq<Step>, k': K, t: Task, all: set<Task>) returns (es: Events)
    requires Inv(k) && IsReady(k, t) && PassedOver(k, steps, k', t) && TasksFrom(k, steps, all)
    ensures Inv(k') && IsReady(k', t) && k'.tcb[t] == k.tcb[t]
    ensures Around(k, k', k.tcb[t].prio, es, t) && JoinsFrom(es, all)
    ensures Passed(es) == SwitchesAt(k, steps, k.tcb[t].prio)
    decreases |steps|
  {
    if steps == [] {
      es := [];
      DelayedMembers(k, t);
    } else {
      hide Inv, Around, Passed, JoinsFrom, Effect;
      var p := k.tcb[t].prio;
      var es1, k1 := StepTurns(k, steps[0], t);
      var es2 := RunTurns(k1, steps[1..], k', t, all);
      es := es1 + es2;
      AroundBoth(k, k1, k', p, es1, es2, t);
      FromAll(k1, es1, es2, steps[1..], all);
    }
  }

  lemma FromAll(k: K, es: Events, es': Events, steps: seq<Step>, all: set<Task>)
    requires Known(k, es) && TasksFrom(k, steps, all) && JoinsFrom(es', all)
    ensures JoinsFrom(es + es', all)
  {
  }
}

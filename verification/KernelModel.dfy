/** The scheduler state of `tasks.cpp` as a value, its list primitives, and its invariant. */
module KernelModel {
  import opened Basics
  import opened Rings

  const MAX_PRIORITIES: nat := 32
  /** `taskEVENT_LIST_ITEM_VALUE_IN_USE`: values from here on carry event bits, not a priority. */
  const VALUE_IN_USE: nat := 0x8000_0000

  type Task = nat

  datatype ListId =
    | Ready(prio: nat)
    | DelayedTasks1 | DelayedTasks2
    | SuspendedTasks
    | WaitingTermination
    | PendingReady
    | Event(q: nat)

  /** A task has two list items: one for its state, one for the event it waits for. */
  datatype Kind = State | EventItem

  function KindOf(id: ListId): Kind {
    if id.PendingReady? || id.Event? then EventItem else State
  }

  datatype Notify = NotWaiting | Waiting | Received

  datatype Tcb = Tcb(
    prio: nat, base: nat, mutexesHeld: nat,
    stateIn: Option<ListId>, wake: nat,
    eventIn: Option<ListId>, eventValue: nat,
    delayAborted: bool, notify: Notify)
  {
    function Container(kind: Kind): Option<ListId> {
      if kind.State? then stateIn else eventIn
    }

    function SetContainer(kind: Kind, c: Option<ListId>): Tcb {
      if kind.State? then this.(stateIn := c) else this.(eventIn := c)
    }

    /** The sort key of the item of the given kind. */
    function Key(kind: Kind): nat {
      if kind.State? then wake else eventValue
    }
  }

  /** `clock` and `due` are the specification's own: the true number of processed ticks, and the
      true tick at which a delayed task is to wake. */
  datatype K = K(
    lists: map<ListId, Ring<Task>>, tcb: map<Task, Tcb>,
    top: set<nat>, current: Task,
    delayed: ListId, overflow: ListId,
    tick: nat, nOverflows: nat, nextUnblock: nat, pended: nat, suspended: nat,
    numTasks: nat, deletedWaiting: nat,
    clock: nat, due: map<Task, nat>)

  function ListOf(k: K, id: ListId): Ring<Task> {
    if id in k.lists then k.lists[id] else Ring([], 0)
  }

  function Items(k: K, id: ListId): seq<Task> {
    ListOf(k, id).items
  }

  function Keys(k: K, id: ListId): (s: seq<nat>)
    ensures |s| == |Items(k, id)|
  {
    var items := Items(k, id);
    seq(|items|, i requires 0 <= i < |items| => if items[i] in k.tcb then k.tcb[items[i]].Key(KindOf(id)) else 0)
  }

  // ----- primitives

  /** Links the task's item of the list's kind into the list. */
  function Put(k: K, t: Task, id: ListId, pos: nat): (k': K)
    requires t in k.tcb && pos <= |Items(k, id)|
  {
    k.(lists := k.lists[id := Place(ListOf(k, id), pos, t)],
       tcb := k.tcb[t := k.tcb[t].SetContainer(KindOf(id), Some(id))])
  }

  function AppendTo(k: K, t: Task, id: ListId): K
    requires t in k.tcb
  {
    var r := ListOf(k, id);
    Put(k, t, id, if r.cursor > 0 then r.cursor - 1 else |r.items|)
  }

  function InsertInto(k: K, t: Task, id: ListId): K
    requires t in k.tcb
  {
    Put(k, t, id, InsertPos(Keys(k, id), k.tcb[t].Key(KindOf(id))))
  }

  /** Unlinks the task's item from its container, if it has one. */
  function Take(k: K, kind: Kind, t: Task): K
    requires t in k.tcb
  {
    var c := k.tcb[t].Container(kind);
    if c.Some? && t in Items(k, c.value) then
      k.(lists := k.lists[c.value := Remove(ListOf(k, c.value), t)],
         tcb := k.tcb[t := k.tcb[t].SetContainer(kind, None)])
    else k
  }

  /** `AddTaskToReadyList`. */
  function AddReady(k: K, t: Task): K
    requires t in k.tcb
  {
    AppendTo(k.(top := k.top + {k.tcb[t].prio}), t, Ready(k.tcb[t].prio))
  }

  /** `if (remove() == 0) portRESET_READY_PRIORITY(Priority)`. */
  function Unready(k: K, t: Task): K
    requires t in k.tcb
  {
    var k' := Take(k, State, t);
    if k.tcb[t].stateIn.Some? && Items(k', k.tcb[t].stateIn.value) == [] then k'.(top := k'.top - {k.tcb[t].prio})
        else k'
  }

  // ----- invariant: lists and containers

  /** The lists and the tasks' container pointers agree: an item is on at most one list. */
  ghost predicate Links(k: K) {
    && k.current in k.tcb
    && (forall id :: NoDup(Items(k, id)))
    && (forall id, t :: t in Items(k, id) ==> t in k.tcb && k.tcb[t].Container(KindOf(id)) == Some(id))
    && (forall t, kind :: t in k.tcb ==> Linked(k, t, k.tcb[t].Container(kind), kind))
    && Unturned(k)
  }

  /** Only the ready lists are gone round with the cursor. */
  ghost predicate Unturned(k: K) {
    forall id: ListId :: !id.Ready? ==> ListOf(k, id).cursor == 0
  }

  predicate Linked(k: K, t: Task, c: Option<ListId>, kind: Kind) {
    c.Some? ==> KindOf(c.value) == kind && t in Items(k, c.value)
  }

  predicate IsDelayList(id: ListId) {
    id.DelayedTasks1? || id.DelayedTasks2?
  }

  /** What `Put` does, without saying where in the list. */
  ghost predicate Joined(k: K, t: Task, id: ListId, k': K)
    requires t in k.tcb
  {
    && k' == k.(lists := k'.lists, tcb := k.tcb[t := k.tcb[t].SetContainer(KindOf(id), Some(id))])
    && (forall id' :: id' != id ==> ListOf(k', id') == ListOf(k, id'))
    && t in Items(k', id) && |Items(k', id)| == |Items(k, id)| + 1
  }

  lemma PutLinks(k: K, t: Task, id: ListId, pos: nat)
    requires Links(k) && t in k.tcb && k.tcb[t].Container(KindOf(id)).None?
    requires pos <= |Items(k, id)|
    ensures Links(Put(k, t, id, pos)) && Joined(k, t, id, Put(k, t, id, pos))
  {
    var k' := Put(k, t, id, pos);
    assert Items(k', id) == InsertAt(Items(k, id), pos, t);
    assert NoDup(Items(k, id));
    InsertAtMembers(Items(k, id), pos, t);
    forall id' ensures NoDup(Items(k', id')) {
      assert NoDup(Items(k, id'));
    }
    forall id', u | u in Items(k', id') ensures u in k'.tcb && k'.tcb[u].Container(KindOf(id')) == Some(id') {
      assert u in Items(k, id') || (id' == id && u == t);
    }
    forall u, kd | u in k'.tcb ensures Linked(k', u, k'.tcb[u].Container(kd), kd) {
      assert Linked(k, u, k.tcb[u].Container(kd), kd);
    }
  }

  /** The links depend on the lists and the container pointers only. */
  lemma LinksFrame(k: K, k': K)
    requires Links(k) && k'.lists == k.lists && k'.tcb.Keys == k.tcb.Keys && k'.current in k'.tcb
    requires forall t :: t in k.tcb ==> k'.tcb[t].stateIn == k.tcb[t].stateIn && k'.tcb[t].eventIn == k.tcb[t].eventIn
    ensures Links(k')
    ensures forall id :: Items(k', id) == Items(k, id)
  {
    forall id ensures Items(k', id) == Items(k, id) {
    }
    forall u, kd | u in k'.tcb ensures Linked(k', u, k'.tcb[u].Container(kd), kd) {
      assert Linked(k, u, k.tcb[u].Container(kd), kd);
    }
  }

  lemma SameTasks(k: K, k': K)
    requires Links(k) && k'.lists == k.lists && k'.tcb == k.tcb && k'.current in k'.tcb
    ensures Links(k')
    ensures forall id :: Items(k', id) == Items(k, id) && Keys(k', id) == Keys(k, id)
  {
    LinksFrame(k, k');
    forall id ensures Items(k', id) == Items(k, id) && Keys(k', id) == Keys(k, id) {
    }
  }

  /** What `Take` does, without saying how. */
  ghost predicate Taken(k: K, kind: Kind, t: Task, k': K)
    requires t in k.tcb
  {
    && k' == k.(lists := k'.lists, tcb := k.tcb[t := k.tcb[t].SetContainer(kind, None)])
    && var c := k.tcb[t].Container(kind);
    && (c.Some? ==> KindOf(c.value) == kind && t in Items(k, c.value))
    && (forall id :: c != Some(id) ==> ListOf(k', id) == ListOf(k, id))
    && (c.Some? ==> Items(k', c.value) == DropAt(Items(k, c.value), IndexOf(Items(k, c.value), t)))
    && (c.Some? ==> forall u :: u in Items(k', c.value) <==> u in Items(k, c.value) && u != t)
  }

  lemma TakeLinks(k: K, kind: Kind, t: Task)
    requires Links(k) && t in k.tcb
    ensures Links(Take(k, kind, t)) && Taken(k, kind, t, Take(k, kind, t))
  {
    var k' := Take(k, kind, t);
    assert Linked(k, t, k.tcb[t].Container(kind), kind);
    if k.tcb[t].Container(kind).None? {
      assert k.tcb == k.tcb[t := k.tcb[t].SetContainer(kind, None)];
    } else {
      var id := k.tcb[t].Container(kind).value;
      assert NoDup(Items(k, id));
      DropAtMembers(Items(k, id), IndexOf(Items(k, id), t));
      forall id' ensures NoDup(Items(k', id')) {
        assert NoDup(Items(k, id'));
      }
      forall id', u | u in Items(k', id') ensures u in k'.tcb && k'.tcb[u].Container(KindOf(id')) == Some(id') {
        assert u in Items(k, id');
      }
      forall u, kd | u in k'.tcb ensures Linked(k', u, k'.tcb[u].Container(kd), kd) {
        assert Linked(k, u, k.tcb[u].Container(kd), kd);
      }
    }
  }

  // ----- invariant: priorities and the bitmap

  /** A ready task is on the list of its own priority. */
  ghost predicate Priorities(k: K) {
    forall t :: t in k.tcb ==> PriorityOk(k.tcb[t])
  }

  predicate PriorityOk(tcb: Tcb) {
    && tcb.prio < MAX_PRIORITIES && tcb.base < MAX_PRIORITIES
    && (tcb.stateIn.Some? && tcb.stateIn.value.Ready? ==> tcb.stateIn.value.prio == tcb.prio)
    && (tcb.notify.Waiting? ==> tcb.eventIn.None?)
  }

  /** Bit p of `TopReadyPriority` is set exactly when `ReadyTasks[p]` is not empty. */
  ghost predicate Bitmap(k: K) {
    forall p :: p in k.top <==> Items(k, Ready(p)) != []
  }

  ghost predicate BitmapBut(k: K, q: nat) {
    forall p :: p != q ==> (p in k.top <==> Items(k, Ready(p)) != [])
  }

  // ----- invariant: time

  /** The wrapping tick count and the overflow count are the two digits of the true clock; the
      current delayed list holds the tasks that wake in this epoch, the other one those of the next. */
  ghost predicate Epochs(k: K) {
    && IsDelayList(k.delayed) && IsDelayList(k.overflow) && k.delayed != k.overflow
    && k.tick < M && k.nextUnblock < M && k.clock == k.nOverflows * M + k.tick
    && Sorted(Keys(k, k.delayed)) && Sorted(Keys(k, k.overflow))
    && (forall t :: t in k.tcb ==> WakeOk(k, t))
  }

  predicate WakeOk(k: K, t: Task)
    requires t in k.tcb
  {
    && (k.tcb[t].stateIn == Some(k.delayed) ==>
          t in k.due && k.tcb[t].wake < M && k.due[t] == k.nOverflows * M + k.tcb[t].wake
          && k.nextUnblock <= k.tcb[t].wake)
    && (k.tcb[t].stateIn == Some(k.overflow) ==>
          t in k.due && k.tcb[t].wake < M && k.due[t] == (k.nOverflows + 1) * M + k.tcb[t].wake)
  }

  /** Between ticks no task on the current delayed list is overdue. */
  ghost predicate NoneOverdue(k: K) {
    forall t :: t in k.tcb && k.tcb[t].stateIn == Some(k.delayed) ==> k.tick < k.tcb[t].wake
  }

  /** What every list operation of the kernel keeps, whatever it does to the bitmap. */
  ghost predicate Core(k: K) {
    Links(k) && Priorities(k) && Epochs(k)
  }

  lemma KeysFrame(k: K, k': K, id: ListId)
    requires Items(k, id) == Items(k', id)
    requires forall t :: t in Items(k, id) ==>
                 t in k.tcb && t in k'.tcb && k.tcb[t].Key(KindOf(id)) == k'.tcb[t].Key(KindOf(id))
    ensures Keys(k, id) == Keys(k', id)
  {
  }

  lemma SortedDrop(values: seq<nat>, i: nat)
    requires Sorted(values) && i < |values|
    ensures Sorted(DropAt(values, i))
  {
  }

  lemma DroppedKeys(k: K, k': K, id: ListId, i: nat)
    requires i < |Items(k, id)| && Items(k', id) == DropAt(Items(k, id), i) && k'.tcb.Keys == k.tcb.Keys
    requires forall t :: t in k.tcb ==> k'.tcb[t].Key(KindOf(id)) == k.tcb[t].Key(KindOf(id))
    ensures Keys(k', id) == DropAt(Keys(k, id), i)
  {
    var now := Items(k', id);
    forall j | 0 <= j < |now| ensures Keys(k', id)[j] == DropAt(Keys(k, id), i)[j] {
      assert now[j] == Items(k, id)[if j < i then j else j + 1];
    }
  }

  lemma TakeKeys(k: K, kind: Kind, t: Task, id: ListId)
    requires Links(k) && t in k.tcb && Sorted(Keys(k, id))
    ensures Sorted(Keys(Take(k, kind, t), id))
  {
    var k' := Take(k, kind, t);
    TakeLinks(k, kind, t);
    if k.tcb[t].Container(kind) == Some(id) {
      SortedDrop(Keys(k, id), IndexOf(Items(k, id), t));
      DroppedKeys(k, k', id, IndexOf(Items(k, id), t));
    } else {
      KeysFrame(k, k', id);
    }
  }

  lemma TakeCore(k: K, kind: Kind, t: Task) returns (k': K)
    requires Core(k) && t in k.tcb
    ensures k' == Take(k, kind, t)
    ensures Core(k') && Taken(k, kind, t, k') && (NoneOverdue(k) ==> NoneOverdue(k'))
  {
    k' := Take(k, kind, t);
    TakeLinks(k, kind, t);
    TakeKeys(k, kind, t, k.delayed);
    TakeKeys(k, kind, t, k.overflow);
    forall u | u in k'.tcb ensures WakeOk(k', u) && PriorityOk(k'.tcb[u]) {
      assert WakeOk(k, u) && PriorityOk(k.tcb[u]);
    }
  }

  /** Linking an item anywhere but on the two delay lists. */
  lemma PutCore(k: K, t: Task, id: ListId, pos: nat)
    requires Core(k) && t in k.tcb && k.tcb[t].Container(KindOf(id)).None? && pos <= |Items(k, id)|
    requires !IsDelayList(id) && (id.Ready? ==> id.prio == k.tcb[t].prio)
    requires KindOf(id).EventItem? ==> !k.tcb[t].notify.Waiting?
    ensures Core(Put(k, t, id, pos)) && Joined(k, t, id, Put(k, t, id, pos))
    ensures NoneOverdue(k) ==> NoneOverdue(Put(k, t, id, pos))
  {
    var k' := Put(k, t, id, pos);
    PutLinks(k, t, id, pos);
    JoinedCore(k, t, id, k');
  }

  lemma JoinedCore(k: K, t: Task, id: ListId, k': K)
    requires Core(k) && Links(k') && t in k.tcb && Joined(k, t, id, k') && k.tcb[t].Container(KindOf(id)).None?
    requires !IsDelayList(id) && (id.Ready? ==> id.prio == k.tcb[t].prio)
    requires KindOf(id).EventItem? ==> !k.tcb[t].notify.Waiting?
    ensures Core(k') && (NoneOverdue(k) ==> NoneOverdue(k'))
  {
    KeysFrame(k, k', k.delayed);
    KeysFrame(k, k', k.overflow);
    forall u | u in k'.tcb ensures WakeOk(k', u) && PriorityOk(k'.tcb[u]) {
      assert WakeOk(k, u) && PriorityOk(k.tcb[u]);
    }
  }

  ghost predicate Readied(k: K, t: Task, k': K)
    requires t in k.tcb
  {
    var id := Ready(k.tcb[t].prio);
    && k' == k.(lists := k'.lists, top := k.top + {k.tcb[t].prio}, tcb := k.tcb[t := k.tcb[t].(stateIn := Some(id))])
    && (forall id' :: id' != id ==> ListOf(k', id') == ListOf(k, id'))
  }

  /** `AddTaskToReadyList` repairs the bit of its own priority, whatever state that was in. */
  lemma AddReadyOk(k: K, t: Task) returns (k': K)
    requires Core(k) && t in k.tcb && k.tcb[t].stateIn.None? && BitmapBut(k, k.tcb[t].prio)
    ensures k' == AddReady(k, t)
    ensures Core(k') && Bitmap(k') && Readied(k, t, k') && (NoneOverdue(k) ==> NoneOverdue(k'))
    ensures JoinsLast(ListOf(k, Ready(k.tcb[t].prio)), ListOf(k', Ready(k.tcb[t].prio)), t)
  {
    var p := k.tcb[t].prio;
    var k1 := k.(top := k.top + {p});
    Retopped(k, k1);
    k' := AppendCore(k1, t, Ready(p));
    AppendIsVisitedLast(ListOf(k, Ready(p)), t);
    ReadiedBy(k, t, k1, k');
  }

  lemma AppendCore(k: K, t: Task, id: ListId) returns (k': K)
    requires Core(k) && t in k.tcb && k.tcb[t].Container(KindOf(id)).None?
    requires !IsDelayList(id) && (id.Ready? ==> id.prio == k.tcb[t].prio)
    requires KindOf(id).EventItem? ==> !k.tcb[t].notify.Waiting?
    ensures k' == AppendTo(k, t, id)
    ensures Core(k') && Joined(k, t, id, k') && (NoneOverdue(k) ==> NoneOverdue(k'))
    ensures ListOf(k', id) == Append(ListOf(k, id), t)
  {
    var r := ListOf(k, id);
    PutCore(k, t, id, if r.cursor > 0 then r.cursor - 1 else |r.items|);
    k' := AppendTo(k, t, id);
  }

  lemma ReadiedBy(k: K, t: Task, k1: K, k2: K)
    requires t in k.tcb && BitmapBut(k, k.tcb[t].prio)
    requires k1 == k.(top := k.top + {k.tcb[t].prio}) && Joined(k1, t, Ready(k.tcb[t].prio), k2)
    ensures Readied(k, t, k2) && Bitmap(k2)
  {
    forall q ensures q in k2.top <==> Items(k2, Ready(q)) != [] {
      if q != k.tcb[t].prio {
        assert ListOf(k2, Ready(q)) == ListOf(k, Ready(q));
      }
    }
  }

  /** The bitmap is not part of `Core`. */
  lemma Retopped(k: K, k': K)
    requires Core(k) && k' == k.(top := k'.top)
    ensures Core(k') && (NoneOverdue(k) ==> NoneOverdue(k'))
  {
    SameTasks(k, k');
    forall u | u in k'.tcb ensures WakeOk(k', u) {
      assert WakeOk(k, u);
    }
  }

  /** Unlinking an item can unsettle only the bit of the task's own priority. */
  lemma TakenBitmap(k: K, kind: Kind, t: Task, k': K)
    requires t in k.tcb && Priorities(k) && Taken(k, kind, t, k') && BitmapBut(k, k.tcb[t].prio)
    ensures BitmapBut(k', k.tcb[t].prio)
    ensures Bitmap(k) && (kind.State? && k.tcb[t].stateIn.Some? ==> !k.tcb[t].stateIn.value.Ready?) ==> Bitmap(k')
  {
    assert PriorityOk(k.tcb[t]);
  }

  /** Removing a ready task, and clearing the bit when its list ran empty, keeps the bitmap exact. */
  lemma UnreadyOk(k: K, t: Task) returns (k': K)
    requires Core(k) && t in k.tcb && Bitmap(k) && k.tcb[t].stateIn == Some(Ready(k.tcb[t].prio))
    ensures k' == Unready(k, t)
    ensures Core(k') && Bitmap(k') && (NoneOverdue(k) ==> NoneOverdue(k'))
    ensures k' == k.(lists := k'.lists, top := k'.top, tcb := k.tcb[t := k.tcb[t].(stateIn := None)])
    ensures forall id :: id != Ready(k.tcb[t].prio) ==> ListOf(k', id) == ListOf(k, id)
  {
    var k1 := TakeCore(k, State, t);
    TakenBitmap(k, State, t, k1);
    k' := Unready(k, t);
    Retopped(k1, k');
    assert forall id :: Items(k', id) == Items(k1, id);
  }
}

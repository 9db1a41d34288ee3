/** Priority inheritance on one mutex, as far as priorities and waiting tasks are concerned.

  The state keeps just what the argument needs: who holds the mutex, who waits for it in which
  order, who is ready, and how far each task is in `QueueSemaphoreTake`. `Mutex` shows that the
  kernel's own steps are these.
 */
module Inheritance {
  import opened Basics
  import opened Rings

  type Task = nat

  /** `Trying(d)`: the task has blocked on the mutex and may do so again; d is its local
      `didInherit`. `Leaving(d)`: its time is up, it has seen the mutex taken, and it has yet to undo
      the inheritance. `Late`: its time is up, but it has seen the mutex free and goes round the loop
      once more, to take it or to return without undoing anything. */
  datatype Phase = Idle | Trying(didInherit: bool) | Leaving(didInherit: bool) | Late

  datatype V = V(
    prio: map<Task, nat>, base: map<Task, nat>, phase: map<Task, Phase>,
    ready: set<Task>, waiters: seq<Task>, holder: Option<Task>)

  predicate WellFormed(v: V) {
    && v.base.Keys == v.prio.Keys && v.phase.Keys == v.prio.Keys && v.ready <= v.prio.Keys
    && (forall t :: t in v.waiters ==> t in v.prio)
    && (v.holder.Some? ==> v.holder.value in v.prio)
  }

  function Max(a: nat, b: nat): nat {
    if a < b then b else a
  }

  /** `GetHighestPriorityOfWaitToReceiveList`; the idle priority is 0. */
  function HighestWaiter(v: V): nat
    requires WellFormed(v)
  {
    if v.waiters == [] then 0 else v.prio[v.waiters[0]]
  }

  // ----- steps

  function Rouse(v: V, t: Task): V {
    v.(ready := v.ready + {t}, waiters := if t in v.waiters then DropAt(v.waiters, IndexOf(v.waiters, t))
        else v.waiters)
  }

  function Sleep(v: V, t: Task): V {
    v.(ready := v.ready - {t})
  }

  function Create(v: V, t: Task, prio: nat): V {
    v.(prio := v.prio[t := prio], base := v.base[t := prio], phase := v.phase[t := Idle], ready := v.ready + {t})
  }

  function Take(v: V, t: Task): V {
    v.(holder := Some(t), phase := v.phase[t := Idle])
  }

  /** Block behind every waiter of at least the same priority, after lending the holder one's own. */
  function Block(v: V, t: Task, pos: nat): V
    requires WellFormed(v) && t in v.prio && v.holder.Some? && pos <= |v.waiters|
  {
    var h := v.holder.value;
    v.(prio := v.prio[h := Max(v.prio[h], v.prio[t])],
       phase := v.phase[t := Trying(v.base[h] < v.prio[t])],
       ready := v.ready - {t}, waiters := InsertAt(v.waiters, pos, t))
  }

  function Give(v: V): V
    requires WellFormed(v) && v.holder.Some?
  {
    var h := v.holder.value;
    var v1 := v.(prio := v.prio[h := v.base[h]], holder := None);
    if v1.waiters == [] then v1 else Rouse(v1, v1.waiters[0])
  }

  /** The wait has timed out while the mutex is taken. */
  function Expire(v: V, t: Task): V
    requires WellFormed(v) && t in v.prio && v.phase[t].Trying?
  {
    v.(phase := v.phase[t := Leaving(v.phase[t].didInherit)])
  }

  /** Undo the inheritance for whoever holds the mutex by now, and return. */
  function Leave(v: V, t: Task): V
    requires WellFormed(v) && t in v.prio
  {
    v.(prio := if v.phase[t] == Leaving(true) && v.holder.Some?
               then v.prio[v.holder.value := Max(v.base[v.holder.value], HighestWaiter(v))] else v.prio,
       phase := v.phase[t := Idle])
  }

  /** The wait has timed out while the mutex is free. */
  function See(v: V, t: Task): V {
    v.(phase := v.phase[t := Late])
  }

  /** Someone has been quicker: return at the top of the loop. */
  function Return(v: V, t: Task): V {
    v.(phase := v.phase[t := Idle])
  }

  // ----- the invariant

  predicate IsTaking(v: V, t: Task)
    requires WellFormed(v)
  {
    t in v.prio && !v.phase[t].Idle?
  }

  /** A task in the call but not on the list: it has been woken, or has timed out. */
  predicate Roused(v: V, t: Task)
    requires WellFormed(v)
  {
    IsTaking(v, t) && t in v.ready
  }

  /** Such a task, and sure to try for the mutex again. */
  predicate Retrying(v: V, t: Task)
    requires WellFormed(v)
  {
    Roused(v, t) && (v.phase[t].Trying? || v.phase[t].Late?)
  }

  /** A task in the call that will not undo an inheritance if it returns now. */
  predicate OwesNothing(phase: Phase) {
    phase.Late? || ((phase.Trying? || phase.Leaving?) && !phase.didInherit)
  }

  ghost predicate Queued(v: V)
    requires WellFormed(v)
  {
    && NoDup(v.waiters)
    && (forall t :: t in v.waiters ==> IsTaking(v, t) && v.phase[t].Trying? && t !in v.ready)
    && (forall t :: IsTaking(v, t) ==> t in v.waiters || t in v.ready)
    && (forall i, j :: 0 <= i < j < |v.waiters| ==> v.prio[v.waiters[j]] <= v.prio[v.waiters[i]])
    && (forall t :: t in v.prio && v.holder != Some(t) ==> v.prio[t] == v.base[t])
  }

  /** The holder runs at the priority it is owed, or at one that a task on its way to give up still
      makes it keep. */
  ghost predicate HolderOk(v: V, h: Task)
    requires WellFormed(v) && h in v.prio
  {
    && v.base[h] <= v.prio[h] && v.phase[h].Idle?
    && (forall t :: t in v.waiters ==> v.prio[t] <= v.prio[h])
    && (v.prio[h] == Max(v.base[h], HighestWaiter(v)) || exists u :: Roused(v, u) && v.prio[u] == v.prio[h])
    && (forall t :: t in v.prio && OwesNothing(v.phase[t]) ==> v.prio[t] <= v.base[h])
  }

  /** While the mutex is free, some task woken for it outranks everyone still waiting. */
  ghost predicate FreeOk(v: V)
    requires WellFormed(v)
  {
    v.waiters != [] ==> exists a :: Retrying(v, a) && v.prio[v.waiters[0]] <= v.prio[a]
  }

  ghost predicate Inv(v: V) {
    WellFormed(v) && Queued(v) && if v.holder.Some? then HolderOk(v, v.holder.value) else FreeOk(v)
  }

  /** Nothing ready outranks t: what the scheduler guarantees of the running task. */
  predicate Outranked(v: V, t: Task)
    requires WellFormed(v) && t in v.prio
  {
    forall u :: u in v.ready ==> v.prio[u] <= v.prio[t]
  }

  // ----- every step keeps it

  lemma RouseQueued(v: V, t: Task)
    requires Inv(v) && t in v.prio
    ensures WellFormed(Rouse(v, t)) && Queued(Rouse(v, t))
    ensures forall w :: w in Rouse(v, t).waiters ==> w in v.waiters && w != t
    ensures Rouse(v, t).waiters != [] ==> v.prio[Rouse(v, t).waiters[0]] <= HighestWaiter(v)
    ensures v.waiters == [] || v.waiters[0] == t ||
            (Rouse(v, t).waiters != [] && Rouse(v, t).waiters[0] == v.waiters[0])
  {
    hide HolderOk, FreeOk;
    if t in v.waiters {
      DropAtMembers(v.waiters, IndexOf(v.waiters, t));
    }
  }

  lemma RouseInv(v: V, t: Task)
    requires Inv(v) && t in v.prio
    ensures Inv(Rouse(v, t))
  {
    var v' := Rouse(v, t);
    RouseQueued(v, t);
    if v.holder.Some? {
      var h := v.holder.value;
      if exists u :: Roused(v, u) && v.prio[u] == v.prio[h] {
        var u :| Roused(v, u) && v.prio[u] == v.prio[h];
        assert Roused(v', u);
      } else if v.prio[h] != v.base[h] && v.waiters[0] == t {
        assert t in v.waiters && IsTaking(v, t);
        assert Roused(v', t) && v'.prio[t] == v'.prio[h];
      }
    } else if v'.waiters != [] {
      var a :| Retrying(v, a) && v.prio[v.waiters[0]] <= v.prio[a];
      assert Retrying(v', a);
    }
  }

  lemma SleepInv(v: V, t: Task)
    requires Inv(v) && t in v.prio && v.phase[t].Idle?
    ensures Inv(Sleep(v, t))
  {
    var v' := Sleep(v, t);
    assert forall u :: Roused(v, u) ==> Roused(v', u);
  }

  lemma CreateInv(v: V, t: Task, prio: nat)
    requires Inv(v) && t !in v.prio
    ensures Inv(Create(v, t, prio))
  {
    hide NoDup, Queued;
    CreateQueued(v, t, prio);
    var v' := Create(v, t, prio);
    assert forall u :: Roused(v, u) ==> Roused(v', u);
  }

  lemma CreateQueued(v: V, t: Task, prio: nat)
    requires WellFormed(v) && Queued(v) && t !in v.prio
    ensures Queued(Create(v, t, prio)) && t !in v.waiters && (forall u :: u in v.waiters ==> u in v.prio)
    ensures HighestWaiter(Create(v, t, prio)) == HighestWaiter(v)
  {
    hide NoDup;
  }

  /** Whoever gets the free mutex, be it the task woken for it or one that comes in between, already
      outranks all waiters. */
  lemma TakeInv(v: V, t: Task)
    requires Inv(v) && t in v.ready && v.holder.None? && Outranked(v, t)
    ensures Inv(Take(v, t))
    ensures Take(v, t).prio[t] == v.base[t]
  {
    var v' := Take(v, t);
    if v.waiters != [] {
      var a :| Retrying(v, a) && v.prio[v.waiters[0]] <= v.prio[a];
      assert v.prio[v.waiters[0]] <= v.prio[t];
      forall w | w in v.waiters ensures v.prio[w] <= v.prio[t] {
        var i :| 0 <= i < |v.waiters| && v.waiters[i] == w;
      }
    }
  }

  /** The place of insertion: behind the waiters that rank at least as high. */
  predicate InOrder(v: V, t: Task, pos: nat)
    requires WellFormed(v) && t in v.prio
  {
    && pos <= |v.waiters|
    && (forall i :: 0 <= i < pos ==> v.prio[t] <= v.prio[v.waiters[i]])
    && (forall i :: pos <= i < |v.waiters| ==> v.prio[v.waiters[i]] < v.prio[t])
  }

  lemma BlockQueued(v: V, t: Task, pos: nat)
    requires Inv(v) && t in v.ready && v.holder.Some? && v.holder != Some(t) && InOrder(v, t, pos)
    ensures WellFormed(Block(v, t, pos)) && Queued(Block(v, t, pos))
    ensures forall w :: w in Block(v, t, pos).waiters <==> w in v.waiters || w == t
    ensures HighestWaiter(Block(v, t, pos)) == if pos == 0 then v.prio[t] else HighestWaiter(v)
    ensures v.holder.value !in v.waiters && (pos > 0 ==> v.prio[t] <= HighestWaiter(v) <= v.prio[v.holder.value])
  {
    var v' := Block(v, t, pos);
    assert t !in v.waiters;
    InsertAtMembers(v.waiters, pos, t);
    assert v.holder.value !in v.waiters;
    assert pos > 0 ==> v.waiters[0] in v.waiters;
    BlockOrder(v.waiters, v.prio, v'.prio, t, pos);
  }

  lemma BlockOrder(waiters: seq<Task>, prio: map<Task, nat>, prio': map<Task, nat>, t: Task, pos: nat)
    requires t in prio && t in prio' && prio'[t] == prio[t] && pos <= |waiters|
    requires forall u :: u in waiters ==> u in prio && u in prio' && prio'[u] == prio[u]
    requires forall i :: 0 <= i < pos ==> prio[t] <= prio[waiters[i]]
    requires forall i :: pos <= i < |waiters| ==> prio[waiters[i]] < prio[t]
    requires forall i, j :: 0 <= i < j < |waiters| ==> prio[waiters[j]] <= prio[waiters[i]]
    ensures forall i :: 0 <= i < |waiters| + 1 ==> InsertAt(waiters, pos, t)[i] in prio'
    ensures forall i, j :: 0 <= i < j < |waiters| + 1 ==>
                prio'[InsertAt(waiters, pos, t)[j]] <= prio'[InsertAt(waiters, pos, t)[i]]
  {
    var ws := InsertAt(waiters, pos, t);
    assert forall i :: 0 <= i < |ws| ==> ws[i] == if i < pos then waiters[i] else if i == pos then t
               else waiters[i - 1];
  }

  lemma BlockInv(v: V, t: Task, pos: nat)
    requires Inv(v) && t in v.ready && v.holder.Some? && v.holder != Some(t) && InOrder(v, t, pos)
    ensures Inv(Block(v, t, pos))
    ensures v.prio[t] <= Block(v, t, pos).prio[v.holder.value]
  {
    hide Queued;
    var v' := Block(v, t, pos);
    var h := v.holder.value;
    BlockQueued(v, t, pos);
    if v.prio[h] >= v.prio[t] && v.prio[h] != Max(v.base[h], HighestWaiter(v)) {
      var u :| Roused(v, u) && v.prio[u] == v.prio[h];
      if u != t {
        assert Roused(v', u);
      }
    }
  }

  lemma GiveQueued(v: V)
    requires Inv(v) && v.holder.Some? && v.holder.value in v.ready
    ensures WellFormed(Give(v)) && Queued(Give(v))
    ensures Give(v).waiters == if v.waiters == [] then [] else v.waiters[1..]
    ensures Give(v).prio == v.prio[v.holder.value := v.base[v.holder.value]] && v.holder.value !in v.waiters
  {
    hide HolderOk, FreeOk;
    var w := v.waiters;
    if w != [] {
      var v1 := v.(prio := v.prio[v.holder.value := v.base[v.holder.value]], holder := None);
      assert IndexOf(w, w[0]) == 0 && DropAt(w, 0) == w[1..];
      assert Give(v) == v1.(ready := v.ready + {w[0]}, waiters := w[1..]);
      DropAtMembers(w, 0);
    }
  }

  /** What a give leaves, without the list surgery. */
  ghost predicate Given(v: V, h: Task, v': V)
    requires WellFormed(v) && h in v.prio
  {
    && v'.holder.None? && v'.phase == v.phase && v'.prio == v.prio[h := v.base[h]]
    && v'.waiters == (if v.waiters == [] then [] else v.waiters[1..])
    && (v.waiters != [] ==> v.waiters[0] in v'.ready)
  }

  lemma GivenFree(v: V, h: Task, v': V)
    requires Inv(v) && h in v.prio && h !in v.waiters && WellFormed(v') && Given(v, h, v')
    ensures FreeOk(v')
  {
    if v'.waiters != [] {
      var a, b := v.waiters[0], v.waiters[1];
      assert a in v.waiters && b in v.waiters && b == v'.waiters[0];
      assert v.prio[b] <= v.prio[a];
      assert Retrying(v', a);
    }
  }

  /** The giver is back at its base priority, and the head of the queue outranks the rest of it. */
  lemma GiveInv(v: V)
    requires Inv(v) && v.holder.Some? && v.holder.value in v.ready
    ensures Inv(Give(v)) && Give(v).prio[v.holder.value] == v.base[v.holder.value]
  {
    GiveQueued(v);
    GivenFree(v, v.holder.value, Give(v));
  }

  lemma ExpireInv(v: V, t: Task)
    requires Inv(v) && Roused(v, t) && v.phase[t].Trying? && v.holder.Some?
    ensures Inv(Expire(v, t))
  {
    var v' := Expire(v, t);
    assert forall u :: Roused(v, u) ==> Roused(v', u);
  }

  lemma SeeInv(v: V, t: Task)
    requires Inv(v) && Retrying(v, t) && v.phase[t].Trying? && v.holder.None?
    ensures Inv(See(v, t))
  {
    var v' := See(v, t);
    assert forall u :: Retrying(v, u) ==> Retrying(v', u);
  }

  /** A task that returns at the top of the loop has not lent the holder anything: whoever took the mutex
      outranked it to begin with. */
  lemma ReturnInv(v: V, t: Task)
    requires Inv(v) && Roused(v, t) && v.phase[t].Late? && v.holder.Some?
    ensures Inv(Return(v, t)) && v.holder != Some(t) && v.prio[t] <= v.base[v.holder.value]
  {
    var v', h := Return(v, t), v.holder.value;
    if !Owed(v, h) {
      var u :| Roused(v, u) && v.prio[u] == v.prio[h];
      assert u != t;
      assert Roused(v', u);
    }
  }

  /** Right after a time-out the holder has exactly the priority it is owed, if the task that gives up
      had lent it one. */
  lemma LeaveInv(v: V, t: Task)
    requires Inv(v) && Roused(v, t) && v.phase[t].Leaving?
    ensures Inv(Leave(v, t)) && v.holder != Some(t)
    ensures v.phase[t].didInherit && v.holder.Some? ==> Owed(Leave(v, t), v.holder.value)
  {
    var v' := Leave(v, t);
    if v.holder.Some? {
      LeaveHolder(v, t);
    } else if v.waiters != [] {
      var a :| Retrying(v, a) && v.prio[v.waiters[0]] <= v.prio[a];
      assert Retrying(v', a);
    }
  }

  /** The holder's priority is its own or that of the highest waiter, whichever is higher. */
  predicate Owed(v: V, h: Task)
    requires WellFormed(v) && h in v.prio
  {
    v.prio[h] == Max(v.base[h], HighestWaiter(v))
  }

  lemma LeaveQueued(v: V, t: Task)
    requires Inv(v) && Roused(v, t) && v.phase[t].Leaving? && v.holder.Some?
    ensures Queued(Leave(v, t)) && v.holder.value !in v.waiters && t !in v.waiters
  {
    hide NoDup;
  }

  lemma WaitersBelow(v: V)
    requires WellFormed(v) && Queued(v)
    ensures forall w :: w in v.waiters ==> v.prio[w] <= HighestWaiter(v)
  {
    hide NoDup;
    forall w | w in v.waiters ensures v.prio[w] <= HighestWaiter(v) {
      var i :| 0 <= i < |v.waiters| && v.waiters[i] == w;
    }
  }

  lemma LeaveHolder(v: V, t: Task)
    requires Inv(v) && Roused(v, t) && v.phase[t].Leaving? && v.holder.Some?
    ensures Inv(Leave(v, t)) && v.holder != Some(t)
    ensures v.phase[t].didInherit ==> Owed(Leave(v, t), v.holder.value)
  {
    hide Queued, HolderOk;
    LeaveQueued(v, t);
    if v.phase[t].didInherit {
      LeavePays(v, t);
    } else {
      LeaveIdle(v, t);
    }
  }

  lemma LeavePays(v: V, t: Task)
    requires WellFormed(v) && Queued(v) && v.holder.Some? && HolderOk(v, v.holder.value) && v.holder.value !in v.waiters
    requires t in v.prio && v.phase[t] == Leaving(true)
    ensures v.holder != Some(t) && HolderOk(Leave(v, t), v.holder.value) && Owed(Leave(v, t), v.holder.value)
  {
    WaitersBelow(v);
    hide Queued;
  }

  lemma LeaveIdle(v: V, t: Task)
    requires WellFormed(v) && v.holder.Some? && HolderOk(v, v.holder.value)
    requires Roused(v, t) && v.phase[t] == Leaving(false)
    ensures v.holder != Some(t) && HolderOk(Leave(v, t), v.holder.value)
  {
    var h := v.holder.value;
    if v.prio[h] != Max(v.base[h], HighestWaiter(v)) {
      var u :| Roused(v, u) && v.prio[u] == v.prio[h];
      assert u != t;
      assert Roused(Leave(v, t), u);
    }
  }

  /** Whenever a task on its way out would change the holder's priority, some other ready task has the
      priority the holder has now. */
  lemma LeavesCompany(v: V, t: Task)
    requires Inv(v) && Roused(v, t) && v.holder.Some?
    ensures !Owed(v, v.holder.value) ==> HasCompany(v, v.holder.value)
  {
  }

  predicate HasCompany(v: V, h: Task)
    requires WellFormed(v) && h in v.prio
  {
    exists u :: u in v.ready && u != h && v.prio[u] == v.prio[h]
  }

  /** Two tasks, of priorities 1 and 5; the lower one holds the mutex. */
  function TwoTasks(prio1: nat, phase1: Phase, phase2: Phase, ready: set<Task>, waiters: seq<Task>): V {
    V(map[1 := prio1, 2 := 5], map[1 := 1, 2 := 5], map[1 := phase1, 2 := phase2], ready, waiters, Some(1))
  }
}

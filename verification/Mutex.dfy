/** One mutex on the kernel of `tasks.cpp`: the priority functions of `tasks.cpp` and the mutex paths
    of `queue.cpp`, and what every run of them keeps. */
module Mutex {
  import opened Basics
  import opened Rings
  import opened KernelModel
  import opened KernelSteps
  import opened KernelApi
  import opened KernelInvariant
  import opened KernelRuns
  import opened KernelTheorems
  import I = Inheritance

  /** The mutex's list of waiting takers (`PendingRX`). */
  const WAITERS: ListId := Event(0)

  /** The kernel, `MutHolder`, and for each task where it is in `QueueSemaphoreTake`. */
  datatype X = X(k: K, holder: Option<Task>, phase: map<Task, I.Phase>)

  // ----- the priority functions

  /** `PriorityInherit`, called by the running task. */
  function Inherit(k: K, h: Task): K
    requires k.current in k.tcb && h in k.tcb && k.tcb[k.current].prio <= MAX_PRIORITIES
  {
    var p := k.tcb[k.current].prio;
    if k.tcb[h].prio >= p then k
    else Reprioritise(k, h, p, k.tcb[h].base, EventValueFor(k.tcb[h], p))
  }

  function DidInherit(k: K, h: Task): bool
    requires k.current in k.tcb && h in k.tcb
  {
    k.tcb[h].prio < k.tcb[k.current].prio || k.tcb[h].base < k.tcb[k.current].prio
  }

  /** `TCB_t::PriorityDisinherit`. */
  function Disinherit(k: K, h: Task): K
    requires h in k.tcb && k.tcb[h].base <= MAX_PRIORITIES
  {
    var k1 := Relabel(k, h, k.tcb[h].(mutexesHeld := Pred(k.tcb[h].mutexesHeld)));
    var tcb := k1.tcb[h];
    if tcb.prio == tcb.base || tcb.mutexesHeld > 0 then k1 else BaseAgain(k1, h)
  }

  /** Off its list, and ready at the base priority. */
  function BaseAgain(k: K, h: Task): K
    requires h in k.tcb && k.tcb[h].base <= MAX_PRIORITIES
  {
    var k1 := Unready(k, h);
    AddReady(Relabel(k1, h, k1.tcb[h].(prio := k.tcb[h].base, eventValue := MAX_PRIORITIES - k.tcb[h].base)), h)
  }

  function PriorityToUse(tcb: Tcb, highestWaiter: nat): nat {
    if tcb.base < highestWaiter then highestWaiter else tcb.base
  }

  /** Whether `PriorityDisinheritAfterTimeout` changes the holder's priority. */
  predicate Lowers(tcb: Tcb, highestWaiter: nat) {
    tcb.prio != PriorityToUse(tcb, highestWaiter) && tcb.mutexesHeld == 1
  }

  /** `PriorityDisinheritAfterTimeout`. */
  function DisinheritAfterTimeout(k: K, h: Task, highestWaiter: nat): K
    requires h in k.tcb && PriorityToUse(k.tcb[h], highestWaiter) <= MAX_PRIORITIES
  {
    if Lowers(k.tcb[h], highestWaiter) then Lowered(k, h, PriorityToUse(k.tcb[h], highestWaiter)) else k
  }

  /** The holder at its new priority p. When the ready list of the old priority runs empty the source
      clears the bit of the new one. */
  function Lowered(k: K, h: Task, p: nat): K
    requires h in k.tcb && p <= MAX_PRIORITIES
  {
    var tcb := k.tcb[h];
    if tcb.stateIn != Some(Ready(tcb.prio)) then
      Relabel(k, h, tcb.(prio := p, eventValue := EventValueFor(tcb, p)))
    else
      var k1 := Take(k, State, h);
      var k2 := if Items(k1, Ready(tcb.prio)) == [] then k1.(top := k1.top - {p}) else k1;
      AddReady(Relabel(k2, h, k2.tcb[h].(prio := p, eventValue := EventValueFor(tcb, p))), h)
  }

  /** The holder has the ready list of its priority to itself. */
  predicate Alone(k: K, h: Task)
    requires h in k.tcb
  {
    k.tcb[h].stateIn == Some(Ready(k.tcb[h].prio)) && |Items(k, Ready(k.tcb[h].prio))| == 1
  }

  /** The holder is off the ready list, alone on the list it is taken from, and others of its priority are
      ready. */
  ghost predicate LeavesStaleBit(k: K, h: Task)
    requires h in k.tcb && k.tcb[h].stateIn.Some?
  {
    var tcb := k.tcb[h];
    tcb.stateIn != Some(Ready(tcb.prio)) && |Items(k, tcb.stateIn.value)| == 1 && Items(k, Ready(tcb.prio)) != []
  }

  /** `PriorityDisinherit` for a holder that is not ready, because some other task gives the mutex. It makes
      the holder ready; and if the holder was alone on the list it is taken off, it clears the bit of the
      old priority, which is wrong exactly if other tasks of that priority are ready. */
  lemma GivenByAnotherIff(k: K, h: Task)
    requires Steady(k) && h in k.tcb && k.tcb[h].stateIn.Some? && k.tcb[h].mutexesHeld == 1 &&
             k.tcb[h].prio != k.tcb[h].base
    ensures k.tcb[h].base <= MAX_PRIORITIES
    ensures Bitmap(Disinherit(k, h)) <==> !LeavesStaleBit(k, h)
  {
    hide Links, Bitmap, NoneOverdue, Epochs, BitmapBut, Changed;
    var tcb := k.tcb[h];
    assert PriorityOk(tcb);
    var k1 := RelabelOk(k, h, tcb.(mutexesHeld := 0));
    if tcb.stateIn == Some(Ready(tcb.prio)) {
      GivenReady(k1, h);
    } else {
      DelayedMembers(k, h);
      var k2 := TakeCore(k1, State, h);
      GivenBits(k, h, k1, k2);
    }
  }

  lemma GivenReady(k: K, h: Task)
    requires Steady(k) && h in k.tcb && k.tcb[h].stateIn == Some(Ready(k.tcb[h].prio)) && k.tcb[h].base < MAX_PRIORITIES
    ensures Bitmap(BaseAgain(k, h))
  {
    hide Links, Bitmap, NoneOverdue, Epochs;
    var k1 := UnreadyOk(k, h);
    var k2 := Relabelled(k1, h, k1.tcb[h].(prio := k.tcb[h].base, eventValue := MAX_PRIORITIES - k.tcb[h].base));
    var k3 := AddReadyOk(k2, h);
  }

  lemma GivenBits(k: K, h: Task, k1: K, k2: K)
    requires Bitmap(k) && h in k.tcb && k.tcb[h].stateIn.Some? && k.tcb[h].mutexesHeld == 1 &&
             k.tcb[h].prio != k.tcb[h].base <= MAX_PRIORITIES
    requires k.tcb[h].stateIn != Some(Ready(k.tcb[h].prio)) && PriorityOk(k.tcb[h]) &&
             h in Items(k, k.tcb[h].stateIn.value)
    requires k1 == Relabel(k, h, k.tcb[h].(mutexesHeld := 0)) && k2 == Take(k1, State, h) && Taken(k1, State, h, k2)
    ensures Bitmap(Disinherit(k, h)) <==> !(|Items(k, k.tcb[h].stateIn.value)| == 1 &&
                                          Items(k, Ready(k.tcb[h].prio)) != [])
  {
    var tcb, k' := k.tcb[h], Disinherit(k, h);
    var c := tcb.stateIn.value;
    assert k2.top == k.top && (Items(k2, c) == [] <==> |Items(k, c)| == 1);
    assert forall p :: p != tcb.base ==> Items(k', Ready(p)) == Items(k, Ready(p));
    assert h in Items(k', Ready(tcb.base));
    assert k'.top == (if Items(k2, c) == [] then k.top - {tcb.prio} else k.top) + {tcb.base};
    assert Bitmap(k') <==> (tcb.prio in k'.top <==> Items(k', Ready(tcb.prio)) != []);
  }

  /** What becomes of the task that gives. */
  function DisinheritedTcb(tcb: Tcb): Tcb
    requires tcb.base <= MAX_PRIORITIES
  {
    if tcb.prio == tcb.base || tcb.mutexesHeld > 1 then tcb.(mutexesHeld := Pred(tcb.mutexesHeld))
    else tcb.(mutexesHeld := 0, prio := tcb.base, eventValue := MAX_PRIORITIES - tcb.base,
         stateIn := Some(Ready(tcb.base)))
  }

  /** The giver has its base priority back, nothing else changes, and the invariant holds, exactly unless the
      giver leaves a stale bit or awaits its own deletion. */
  lemma DisinheritInv(k: K, h: Task) returns (k': K)
    requires Inv(k) && h in k.tcb && k.tcb[h].mutexesHeld > 0
    ensures k.tcb[h].base <= MAX_PRIORITIES && k.tcb[h].stateIn.Some? && k' == Disinherit(k, h)
    ensures k'.tcb == k.tcb[h := DisinheritedTcb(k.tcb[h])]
    ensures var back := k.tcb[h].prio != k.tcb[h].base && k.tcb[h].mutexesHeld == 1;
            && (Bitmap(k') <==> !(back && LeavesStaleBit(k, h)))
            && (Inv(k') <==> !(back && (LeavesStaleBit(k, h) || k.tcb[h].stateIn == Some(WaitingTermination))))
            && (Inv(k') ==> Changed(k, h, DisinheritedTcb(k.tcb[h]), k'))
  {
    hide Links, Bitmap, NoneOverdue, Epochs, BaseAgain, Changed;
    var tcb := k.tcb[h];
    assert PriorityOk(tcb) && Settled(tcb);
    var k1 := RelabelOk(k, h, tcb.(mutexesHeld := Pred(tcb.mutexesHeld)));
    ChangedInv(k, h, k1.tcb[h], k1);
    k' := Disinherit(k, h);
    if tcb.prio != tcb.base && tcb.mutexesHeld == 1 {
      GivenByAnotherIff(k, h);
      BaseAgainTcb(k, h, k1);
      BaseAgainInv(k, h, k1);
    }
  }

  lemma BaseAgainTcb(k: K, h: Task, k1: K)
    requires Links(k) && h in k.tcb && k.tcb[h].base <= MAX_PRIORITIES && k.tcb[h].mutexesHeld == 1 &&
             k.tcb[h].prio != k.tcb[h].base
    requires k1 == Relabel(k, h, k.tcb[h].(mutexesHeld := 0)) && Links(k1)
    ensures BaseAgain(k1, h).tcb == k.tcb[h := DisinheritedTcb(k.tcb[h])]
  {
    var k2 := Unready(k1, h);
    assert k2.tcb == k1.tcb[h := k1.tcb[h].(stateIn := None)] by {
      TakeLinks(k1, State, h);
    }
    hide Links, Unready;
    assert BaseAgain(k1, h).tcb.Keys == k.tcb.Keys;
  }

  lemma BaseAgainInv(k: K, h: Task, k1: K)
    requires Inv(k) && h in k.tcb && k.tcb[h].stateIn.Some? && k.tcb[h].mutexesHeld == 1 &&
             k.tcb[h].prio != k.tcb[h].base
    requires k1 == Relabel(k, h, k.tcb[h].(mutexesHeld := 0)) && Inv(k1) && k.tcb[h].base < MAX_PRIORITIES
    requires Bitmap(BaseAgain(k1, h)) <==> !LeavesStaleBit(k, h)
    ensures var k' := BaseAgain(k1, h);
            && (Inv(k') <==> !(LeavesStaleBit(k, h) || k.tcb[h].stateIn == Some(WaitingTermination)))
            && (Inv(k') ==> Changed(k, h, DisinheritedTcb(k.tcb[h]), k'))
  {
    hide Links, Bitmap, NoneOverdue, Epochs, Priorities, BaseAgain;
    var k2 := BackAtBase(k1, h);
    BaseAgainTcb(k, h, k1);
    assert Items(k1, WaitingTermination) == Items(k, WaitingTermination);
    assert |k2.tcb| == |k2.tcb.Keys| == |k.tcb.Keys| == |k.tcb|;
  }

  /** However the bitmap turns out, all else is in order; only who awaits termination may have changed. */
  lemma BackAtBase(k: K, h: Task) returns (k': K)
    requires Inv(k) && h in k.tcb && k.tcb[h].stateIn.Some? && k.tcb[h].base < MAX_PRIORITIES
    ensures k' == BaseAgain(k, h) && Core(k') && NoneOverdue(k')
    ensures k' == k.(lists := k'.lists, tcb := k'.tcb, top := k'.top)
    ensures if k.tcb[h].stateIn == Some(WaitingTermination)
            then |Items(k', WaitingTermination)| == |Items(k, WaitingTermination)| - 1
            else ListOf(k', WaitingTermination) == ListOf(k, WaitingTermination)
  {
    hide Links, Bitmap, NoneOverdue, Epochs, AddReady;
    var k1 := TakeCore(k, State, h);
    var k2 := Unready(k, h);
    Retopped(k1, k2);
    k' := Rejoined(k2, h, k.tcb[h].base);
  }

  lemma Rejoined(k: K, h: Task, p: nat) returns (k': K)
    requires Core(k) && NoneOverdue(k) && h in k.tcb && k.tcb[h].stateIn.None? && p < MAX_PRIORITIES
    ensures k' == AddReady(Relabel(k, h, k.tcb[h].(prio := p, eventValue := MAX_PRIORITIES - p)), h)
    ensures Core(k') && NoneOverdue(k') && k' == k.(lists := k'.lists, tcb := k'.tcb, top := k'.top)
    ensures ListOf(k', WaitingTermination) == ListOf(k, WaitingTermination)
  {
    hide Links, Bitmap, NoneOverdue, Epochs, AppendTo;
    assert PriorityOk(k.tcb[h]);
    var k1 := Relabelled(k, h, k.tcb[h].(prio := p, eventValue := MAX_PRIORITIES - p));
    var k2 := k1.(top := k1.top + {p});
    Retopped(k1, k2);
    k' := AppendCore(k2, h, Ready(p));
  }

  /** When some other task shares the holder's ready list, `PriorityDisinheritAfterTimeout` is the
      plain change of priority. */
  lemma InCompany(k: K, h: Task, highestWaiter: nat)
    requires Steady(k) && h in k.tcb && highestWaiter < MAX_PRIORITIES && Lowers(k.tcb[h], highestWaiter) &&
             !Alone(k, h)
    ensures PriorityToUse(k.tcb[h], highestWaiter) < MAX_PRIORITIES
    ensures var p := PriorityToUse(k.tcb[h], highestWaiter);
            DisinheritAfterTimeout(k, h, highestWaiter) ==
                Reprioritise(k, h, p, k.tcb[h].base, EventValueFor(k.tcb[h], p))
  {
    assert PriorityOk(k.tcb[h]);
    if k.tcb[h].stateIn == Some(Ready(k.tcb[h].prio)) {
      var k1 := TakeCore(k, State, h);
    }
  }

  /** Exactly then does it keep the ready bitmap: a holder that is alone on its list leaves the bit
      of its old priority set on an empty list. */
  lemma BitmapAfterTimeout(k: K, h: Task, highestWaiter: nat)
    requires Steady(k) && h in k.tcb && highestWaiter < MAX_PRIORITIES
    ensures PriorityToUse(k.tcb[h], highestWaiter) < MAX_PRIORITIES
    ensures Bitmap(DisinheritAfterTimeout(k, h, highestWaiter)) <==> !(Lowers(k.tcb[h], highestWaiter) && Alone(k, h))
  {
    assert PriorityOk(k.tcb[h]);
    var p := PriorityToUse(k.tcb[h], highestWaiter);
    if Lowers(k.tcb[h], highestWaiter) {
      if Alone(k, h) {
        StaleBit(k, h, highestWaiter);
      } else {
        InCompany(k, h, highestWaiter);
        var k' := ReprioritiseOk(k, h, p, k.tcb[h].base, EventValueFor(k.tcb[h], p));
      }
    }
  }

  /** And exactly then it keeps the invariant, and changes the holder alone. */
  lemma TimeoutInv(k: K, h: Task, highestWaiter: nat) returns (k': K)
    requires Inv(k) && h in k.tcb && highestWaiter < MAX_PRIORITIES
    ensures k.tcb[h].base < MAX_PRIORITIES && k' == DisinheritAfterTimeout(k, h, highestWaiter)
    ensures k'.tcb == k.tcb[h := TimeoutTcb(k.tcb[h], highestWaiter)]
    ensures var stale := Lowers(k.tcb[h], highestWaiter) && Alone(k, h);
            && (Bitmap(k') <==> !stale) && (Inv(k') <==> !stale)
            && (Inv(k') ==> Changed(k, h, TimeoutTcb(k.tcb[h], highestWaiter), k'))
  {
    hide Links, Bitmap, NoneOverdue, Epochs, Alone, Lowered, Changed;
    assert PriorityOk(k.tcb[h]) && Settled(k.tcb[h]);
    k' := DisinheritAfterTimeout(k, h, highestWaiter);
    BitmapAfterTimeout(k, h, highestWaiter);
    TimeoutKeepsOthers(k, h, highestWaiter);
    if !Lowers(k.tcb[h], highestWaiter) {
      assert k.tcb == k.tcb[h := k.tcb[h]];
      NothingChanged(k, h);
    } else if !Alone(k, h) {
      InCompany(k, h, highestWaiter);
      var p := PriorityToUse(k.tcb[h], highestWaiter);
      var k1 := ReprioritiseOk(k, h, p, k.tcb[h].base, EventValueFor(k.tcb[h], p));
      ChangedInv(k, h, k1.tcb[h], k1);
    }
  }

  lemma NothingChanged(k: K, t: Task)
    requires t in k.tcb
    ensures Changed(k, t, k.tcb[t], k)
  {
    assert k.tcb == k.tcb[t := k.tcb[t]];
  }

  /** What becomes of the holder when a waiter gives up. */
  function TimeoutTcb(tcb: Tcb, highestWaiter: nat): Tcb
    requires PriorityToUse(tcb, highestWaiter) <= MAX_PRIORITIES
  {
    var p := PriorityToUse(tcb, highestWaiter);
    if Lowers(tcb, highestWaiter) then ReprioTcb(tcb, p, tcb.base, EventValueFor(tcb, p)) else tcb
  }

  lemma TimeoutKeepsOthers(k: K, h: Task, highestWaiter: nat)
    requires Links(k) && h in k.tcb && PriorityToUse(k.tcb[h], highestWaiter) <= MAX_PRIORITIES
    ensures DisinheritAfterTimeout(k, h, highestWaiter).tcb == k.tcb[h := TimeoutTcb(k.tcb[h], highestWaiter)]
  {
    var k1 := Take(k, State, h);
    assert k1.tcb == k.tcb[h := k.tcb[h].(stateIn := None)] by {
      TakeLinks(k, State, h);
    }
    hide Links, Take, EventValueFor;
    assert DisinheritAfterTimeout(k, h, highestWaiter).tcb.Keys == k.tcb.Keys;
  }

  lemma StaleBit(k: K, h: Task, highestWaiter: nat)
    requires Steady(k) && h in k.tcb && highestWaiter < MAX_PRIORITIES && Lowers(k.tcb[h], highestWaiter) && Alone(k, h)
    ensures PriorityToUse(k.tcb[h], highestWaiter) < MAX_PRIORITIES
    ensures var k' := DisinheritAfterTimeout(k, h, highestWaiter);
            k.tcb[h].prio in k'.top && Items(k', Ready(k.tcb[h].prio)) == []
  {
    assert PriorityOk(k.tcb[h]);
    DelayedMembers(k, h);
    var k1 := TakeCore(k, State, h);
    assert Items(k1, Ready(k.tcb[h].prio)) == [];
  }

  // ----- the mutex paths of `queue.cpp`, each one critical section or one stretch with the
  //       scheduler suspended

  /** `nWaiting > 0` in `QueueSemaphoreTake`: the running task gets the mutex. */
  function TakeMutex(x: X): X
    requires x.k.current in x.k.tcb
  {
    var t := x.k.current;
    X(Relabel(x.k, t, x.k.tcb[t].(mutexesHeld := x.k.tcb[t].mutexesHeld + 1)), Some(t), x.phase[t := I.Idle])
  }

  /** The mutex is taken and there is time left: lend the holder one's priority and block. */
  function RequestMutex(x: X, ticks: nat): X
    requires x.k.current in x.k.tcb && x.k.tcb[x.k.current].prio <= MAX_PRIORITIES
    requires x.holder.Some? && x.holder.value in x.k.tcb
  {
    var t, h := x.k.current, x.holder.value;
    var k1 := Inherit(x.k, h);
    if k1.current !in k1.tcb then x
    else x.(k := BlockOn(k1, 0, ticks), phase := x.phase[t := I.Trying(DidInherit(x.k, h))])
  }

  /** Time is up and the mutex is still taken. */
  function ExpireMutex(x: X): X
    requires x.k.current in x.phase && x.phase[x.k.current].Trying?
  {
    x.(phase := x.phase[x.k.current := I.Leaving(x.phase[x.k.current].didInherit)])
  }

  /** Time is up and the mutex has come free. */
  function SeeMutex(x: X): X {
    x.(phase := x.phase[x.k.current := I.Late])
  }

  /** No time is left and the mutex is taken again: the return at the top of the loop, which leaves the
      holder's priority alone. */
  function ReturnLate(x: X): X {
    x.(phase := x.phase[x.k.current := I.Idle])
  }

  /** `GetHighestPriorityOfWaitToReceiveList`. */
  function HighestWaiter(k: K): nat {
    if Items(k, WAITERS) == [] || Keys(k, WAITERS)[0] > MAX_PRIORITIES then 0 else MAX_PRIORITIES - Keys(k, WAITERS)[0]
  }

  /** The last critical section of a `QueueSemaphoreTake` that fails. */
  function LeaveMutex(x: X): X
    requires x.k.current in x.phase
    requires x.holder.Some? ==> x.holder.value in x.k.tcb && x.k.tcb[x.holder.value].base <= MAX_PRIORITIES
  {
    var k' := if x.phase[x.k.current] == I.Leaving(true) && x.holder.Some?
              then DisinheritAfterTimeout(x.k, x.holder.value, HighestWaiter(x.k)) else x.k;
    X(k', x.holder, x.phase[x.k.current := I.Idle])
  }

  /** `copyFrom` on a mutex, and the wake-up of the first task that waits for it. */
  function GiveMutex(x: X): X
    requires x.holder.Some? && x.holder.value in x.k.tcb && x.k.tcb[x.holder.value].base <= MAX_PRIORITIES
  {
    var k1 := Disinherit(x.k, x.holder.value);
    X(if Items(k1, WAITERS) == [] then k1 else WakeFrom(k1, 0), None, x.phase)
  }
}

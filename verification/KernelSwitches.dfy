/** When the kernel asks for a context switch, and how the processor goes round. */
module KernelSwitches {
  import opened Basics
  import opened Rings
  import opened KernelModel
  import opened KernelSteps
  import opened KernelApi
  import opened KernelInvariant
  import opened KernelRuns

  /** `TCB->Priority > CurrentTCB->Priority`. */
  predicate Outranks(k: K, t: Task) {
    t in k.tcb && k.current in k.tcb && k.tcb[t].prio > k.tcb[k.current].prio
  }

  /** The running task has no reason to give way to one that is ready. */
  ghost predicate NoneOutranks(k: K) {
    forall t :: IsReady(k, t) ==> !Outranks(k, t)
  }

  // ----- what a tick asks for

  /** Among the tasks that the scan of the delayed list wakes is one that outranks the running task. */
  ghost predicate DueUrgent(k: K, ts: seq<Task>) {
    exists t :: t in ts && t in k.tcb && k.tcb[t].wake <= k.tick && Outranks(k, t)
  }

  /** A task whose wake time comes before the clock has gone past `clock` outranks the running one. */
  ghost predicate WakesUrgent(k: K, clock: nat) {
    exists t :: ComesDue(k, t, clock) && Outranks(k, t)
  }

  /** The running task has to share its priority. */
  predicate Shares(k: K) {
    k.current in k.tcb && |Items(k, Ready(k.tcb[k.current].prio))| > 1
  }

  /** Why ticks that take k to k' ask for a switch. */
  ghost predicate WantsSwitch(k: K, k': K) {
    WakesUrgent(k, k'.clock) || Shares(k')
  }

  lemma ScanUrgentStops(k: K, ts: seq<Task>)
    requires ScanOrder(k, ts) && (ts == [] || k.tick < k.tcb[ts[0]].wake)
    ensures !DueUrgent(k, ts)
  {
    forall t | t in ts ensures k.tick < k.tcb[t].wake {
      var i :| 0 <= i < |ts| && ts[i] == t;
      assert ts[0] in ts && k.tcb[ts[0]].wake <= k.tcb[ts[i]].wake;
    }
  }

  lemma ScanUrgentNext(k: K, ts: seq<Task>, k1: K)
    requires ts != [] && ScanOrder(k, ts) && k.tcb[ts[0]].wake <= k.tick && k.current in k.tcb && Roused(k, ts[0], k1)
    ensures DueUrgent(k, ts) <==> Outranks(k1, ts[0]) || DueUrgent(k1, ts[1..])
  {
    assert forall t :: t in ts <==> t == ts[0] || t in ts[1..];
    assert forall t :: Outranks(k1, t) <==> Outranks(k, t);
    if Outranks(k, ts[0]) {
      assert ts[0] in ts;
    }
    forall t | t in ts[1..] ensures k1.tcb[t].wake == k.tcb[t].wake && t in k.tcb {
    }
  }

  /** The scan finds an urgent task exactly if one comes due; and there is none to be found before the
      cached unblock time. */
  lemma AdvanceUrgent(k: K, k1: K)
    requires Links(k) && Core(k1) && DueNow(k, k1) && k1.clock == k.clock + 1
    requires k1 == k.(tick := k1.tick, clock := k1.clock, nOverflows := k1.nOverflows, nextUnblock := k1.nextUnblock,
                      delayed := k1.delayed, overflow := k1.overflow)
    requires {k1.delayed, k1.overflow} == {k.delayed, k.overflow}
    ensures WakesUrgent(k, k1.clock) <==> DueUrgent(k1, Items(k1, k1.delayed))
    ensures k1.tick < k1.nextUnblock ==> !DueUrgent(k1, Items(k1, k1.delayed))
  {
    var ts := Items(k1, k1.delayed);
    forall t ensures ComesDue(k, t, k1.clock) <==> t in ts && t in k1.tcb && k1.tcb[t].wake <= k1.tick {
      DueIsScanned(k, k1, t);
    }
    assert forall t :: Outranks(k1, t) <==> Outranks(k, t);
    if k1.tick < k1.nextUnblock {
      forall t | t in ts ensures k1.tick < k1.tcb[t].wake {
        assert WakeOk(k1, t);
      }
    }
  }

  lemma DueIsScanned(k: K, k1: K, t: Task)
    requires Links(k) && DueNow(k, k1) && k1.clock == k.clock + 1 && k1.lists == k.lists && k1.tcb == k.tcb
    requires {k1.delayed, k1.overflow} == {k.delayed, k.overflow} && IsDelayList(k1.delayed)
    ensures ComesDue(k, t, k1.clock) <==> t in Items(k1, k1.delayed) && t in k1.tcb && k1.tcb[t].wake <= k1.tick
  {
    assert k1.delayed in {k.delayed, k.overflow};
    if t in Items(k1, k1.delayed) {
      assert t in Items(k, k1.delayed);
      assert Blocked(k, t);
    }
  }

  // ----- several ticks

  lemma TwoOf<T>(s: seq<T>, s': seq<T>)
    requires NoDup(s) && |s| > 1 && forall t :: t in s ==> t in s'
    ensures |s'| > 1
  {
    assert s[0] in s' && s[1] in s' && s[0] != s[1];
  }

  /** No tick takes a task off a ready list. */
  lemma ReadyStays(k: K, k': K)
    requires Links(k) && Priorities(k) && Links(k') && Ticked(k, k') && IsDelayList(k.delayed) &&
             IsDelayList(k.overflow)
    ensures Shares(k) ==> Shares(k')
  {
    if Shares(k) {
      var id := Ready(k.tcb[k.current].prio);
      forall t | t in Items(k, id) ensures t in Items(k', id) {
        OnReadyList(k, id, t);
        assert k'.tcb[t] == k.tcb[t];
        DelayedMembers(k', t);
      }
      TwoOf(Items(k, id), Items(k', id));
    }
  }

  lemma UrgentTrans(k: K, k1: K, k2: K)
    requires Ticked(k, k1) && k.clock <= k1.clock <= k2.clock && IsDelayList(k.delayed) && IsDelayList(k.overflow)
    ensures WakesUrgent(k, k2.clock) <==> WakesUrgent(k, k1.clock) || WakesUrgent(k1, k2.clock)
  {
    assert k.delayed in {k1.delayed, k1.overflow} && k.overflow in {k1.delayed, k1.overflow};
    assert k1.delayed in {k.delayed, k.overflow} && k1.overflow in {k.delayed, k.overflow};
    forall t ensures Outranks(k1, t) <==> Outranks(k, t) {
      assert t in k.tcb ==> k1.tcb[t] == TickedTcb(k, t, k1.clock);
      assert k.current in k.tcb ==> k1.tcb[k.current] == TickedTcb(k, k.current, k1.clock);
    }
    forall t ensures ComesDue(k, t, k2.clock) <==> ComesDue(k, t, k1.clock) || ComesDue(k1, t, k2.clock) {
      assert t in k.tcb ==> k1.tcb[t] == TickedTcb(k, t, k1.clock);
    }
  }

  /** A sequence of ticks wants a switch exactly if one part of it does: the reasons for a switch do not go
      away before there is one. */
  lemma WantsSwitchTrans(k: K, k1: K, k2: K)
    requires Inv(k) && Inv(k1) && Inv(k2) && Ticked(k, k1) && Ticked(k1, k2) && k.clock <= k1.clock <= k2.clock
    ensures WantsSwitch(k, k2) <==> WantsSwitch(k, k1) || WantsSwitch(k1, k2)
  {
    UrgentTrans(k, k1, k2);
    ReadyStays(k1, k2);
  }

  /** The ticks ask for a switch whenever one is due: if nobody outranked the running task before them, then
      somebody does afterwards exactly if one of those they wake does. */
  lemma TicksAsk(k: K, n: nat, k': K)
    requires TickedBetween(k, n, k') && NoneOutranks(k)
    ensures NoneOutranks(k') <==> !WakesUrgent(k, k'.clock)
  {
    forall t ensures Outranks(k', t) <==> Outranks(k, t) {
      assert t in k.tcb ==> k'.tcb[t] == TickedTcb(k, t, k'.clock);
      assert k.current in k.tcb ==> k'.tcb[k.current] == TickedTcb(k, k.current, k'.clock);
    }
    forall t ensures IsReady(k', t) <==> IsReady(k, t) || ComesDue(k, t, k'.clock) {
      assert t in k.tcb ==> k'.tcb[t] == TickedTcb(k, t, k'.clock);
    }
  }

  // ----- what ResumeAll asks for

  /** A task woken while the scheduler was suspended outranks the running one. */
  ghost predicate PendingUrgent(k: K) {
    exists t :: t in Items(k, PendingReady) && Outranks(k, t)
  }

  lemma DrainUrgentNext(k: K, k1: K)
    requires Items(k, PendingReady) != [] && var ts := Items(k, PendingReady);
             ts[0] in k.tcb && Roused(k, ts[0], k1) && Items(k1, PendingReady) == ts[1..] && k.current in k.tcb
    ensures var t := Items(k, PendingReady)[0]; PendingUrgent(k) <==> Outranks(k1, t) || PendingUrgent(k1)
  {
    var ts := Items(k, PendingReady);
    assert forall t :: t in ts <==> t == ts[0] || t in ts[1..];
    assert forall t :: Outranks(k1, t) <==> Outranks(k, t);
    if Outranks(k, ts[0]) {
      assert ts[0] in ts;
    }
  }

  /** The reasons for a switch at the end of a suspension. */
  ghost predicate ResumeWants(k: K, k': K) {
    PendingUrgent(k) || (k.pended > 0 && WantsSwitch(k, k'))
  }

  /** Draining the pending tasks first makes no difference to which reasons there are. */
  lemma ResumeReasons(k: K, ts: seq<Task>, k1: K, k': K)
    requires ts == Items(k, PendingReady) && k.current in k.tcb && k1.tcb.Keys == k.tcb.Keys && k1.due == k.due
    requires k1.current == k.current && k1.clock == k.clock && k1.delayed == k.delayed && k1.overflow == k.overflow
    requires IsDelayList(k.delayed) && IsDelayList(k.overflow)
    requires forall t :: t in k.tcb ==> k1.tcb[t] == if t in ts then WokenTcb(k.tcb[t]) else k.tcb[t]
    ensures ResumeWants(k, k') <==> PendingUrgent(k) || (k.pended > 0 && WantsSwitch(k1, k'))
  {
    assert forall t :: Outranks(k1, t) <==> Outranks(k, t);
    forall t ensures ComesDue(k1, t, k'.clock) <==> ComesDue(k, t, k'.clock) && t !in ts {
    }
  }

  /** Nobody is left outranking the running task without `ResumeAll` asking for a switch. */
  lemma ResumeAsks(k: K, k': K)
    requires k.current in k.tcb && Resumed(k, k') && NoneOutranks(k) && !ResumeWants(k, k')
    ensures NoneOutranks(k')
  {
    var pending := Items(k, PendingReady);
    assert forall t :: Outranks(k', t) <==> Outranks(k, t);
    forall t | IsReady(k', t) ensures !Outranks(k, t) {
      assert k'.tcb[t] == if t in pending then WokenTcb(k.tcb[t]) else TickedTcb(k, t, k'.clock);
      if t !in pending && ComesDue(k, t, k'.clock) {
        assert k.pended > 0;
        assert !WakesUrgent(k, k'.clock);
      } else if t !in pending {
        assert IsReady(k, t);
      }
    }
  }

  // ----- taking turns

  function SwitchN(k: K, n: nat): K {
    if n == 0 then k else Switch(SwitchN(k, n - 1))
  }

  /** The tasks that n switches choose. */
  function Chosen(k: K, n: nat): (s: seq<Task>)
    ensures |s| == n
  {
    if n == 0 then [] else Chosen(k, n - 1) + [SwitchN(k, n).current]
  }

  /** The ready list of the highest ready priority. */
  function TopList(k: K): ListId
    requires exists b :: b in k.top && b < MAX_PRIORITIES
  {
    Ready(HighestBit(k.top, MAX_PRIORITIES))
  }

  ghost predicate HighestReady(k: K, t: Task) {
    IsReady(k, t) && forall u :: IsReady(k, u) ==> k.tcb[u].prio <= k.tcb[t].prio
  }

  lemma SomeBit(k: K)
    requires Steady(k) && SomeReady(k)
    ensures exists b :: b in k.top && b < MAX_PRIORITIES
  {
    var t :| t in k.tcb && IsReady(k, t);
    ReadyBits(k, t);
  }

  /** The highest list holds exactly the ready tasks that nobody outranks. */
  lemma TopMembers(k: K)
    requires Steady(k) && exists b :: b in k.top && b < MAX_PRIORITIES
    ensures Items(k, TopList(k)) != [] && NoDup(Items(k, TopList(k)))
    ensures forall t :: t in Items(k, TopList(k)) <==> HighestReady(k, t)
  {
    var p := HighestBit(k.top, MAX_PRIORITIES);
    var first := Items(k, Ready(p))[0];
    assert first in Items(k, Ready(p));
    OnReadyList(k, Ready(p), first);
    forall u | IsReady(k, u) ensures k.tcb[u].prio <= p {
      ReadyBits(k, u);
    }
    forall t ensures t in Items(k, Ready(p)) <==> HighestReady(k, t) {
      if t in Items(k, Ready(p)) {
        OnReadyList(k, Ready(p), t);
      } else if HighestReady(k, t) {
        DelayedMembers(k, t);
      }
    }
  }

  lemma {:induction false} SwitchedN(k: K, n: nat) returns (k': K)
    requires Inv(k) && k.suspended == 0 && exists b :: b in k.top && b < MAX_PRIORITIES
    ensures k' == SwitchN(k, n) && Inv(k') && k' == k.(lists := k'.lists, current := k'.current)
    ensures ListOf(k', TopList(k)) == AdvanceBy(ListOf(k, TopList(k)), n)
    ensures Items(k, TopList(k)) != [] && Chosen(k, n) == Served(ListOf(k, TopList(k)), n)
    decreases n
  {
    hide Inv;
    if n == 0 {
      var k1 := SwitchedOnce(k);
      k' := k;
    } else {
      var k1 := SwitchedN(k, n - 1);
      k' := SwitchedOnce(k1);
      AdvanceKeepsItems(ListOf(k, TopList(k)), n - 1);
    }
  }

  lemma SwitchedOnce(k: K) returns (k': K)
    requires Inv(k) && k.suspended == 0 && exists b :: b in k.top && b < MAX_PRIORITIES
    ensures k' == Switch(k) && Inv(k') && k' == k.(lists := k'.lists, current := k'.current)
    ensures ListOf(k', TopList(k)) == Advance(ListOf(k, TopList(k))) && Items(k, TopList(k)) != []
    ensures var r := ListOf(k', TopList(k)); 0 < r.cursor <= |r.items| && k'.current == r.items[r.cursor - 1]
  {
    hide Links, Bitmap, NoneOverdue, Epochs, Priorities;
    TopMembers(k);
    var first := Items(k, TopList(k))[0];
    assert first in Items(k, TopList(k)) && HighestReady(k, first);
    k' := SwitchInv(k);
    AdvanceRotates(ListOf(k, TopList(k)));
  }

  /** Time slicing is fair: while nothing else happens, as many switches as there are ready tasks of the
      highest priority choose each of them exactly once, and leave the order of turns as it was. */
  lemma TurnsAreFair(k: K)
    requires Inv(k) && k.suspended == 0 && SomeReady(k)
    ensures exists b :: b in k.top && b < MAX_PRIORITIES
    ensures var n := |Items(k, TopList(k))|;
            && Chosen(k, n) == Visits(ListOf(k, TopList(k))) && multiset(Chosen(k, n)) == multiset(Items(k, TopList(k)))
            && NoDup(Items(k, TopList(k))) && (forall t :: t in Items(k, TopList(k)) <==> HighestReady(k, t))
            && Visits(ListOf(SwitchN(k, n), TopList(k))) == Visits(ListOf(k, TopList(k)))
  {
    SomeBit(k);
    TopMembers(k);
    var n := |Items(k, TopList(k))|;
    var k' := SwitchedN(k, n);
    RoundRobinIsFair(ListOf(k, TopList(k)));
  }
}

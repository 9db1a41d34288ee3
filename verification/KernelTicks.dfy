/** The tick handler against its naive specification, and a kernel to start from. */
module KernelTicks {
  import opened Basics
  import opened Rings
  import opened KernelModel
  import opened KernelSteps
  import opened KernelApi
  import opened KernelInvariant
  import opened KernelRuns

  // ----- the cached unblock time changes nothing but speed

  /** Scan every delayed task, in list order, and wake each one that is due. */
  function NaiveWake(k: K, ts: seq<Task>): K
    decreases |ts|
  {
    if ts == [] then k
    else NaiveWake(if ts[0] in k.tcb && k.tcb[ts[0]].wake <= k.tick then Rouse(k, ts[0], State) else k, ts[1..])
  }

  /** A tick that scans the delayed list every time and keeps no cache. */
  function NaiveTick(k: K): K {
    var k1 := AdvanceTick(k);
    NaiveWake(k1, Items(k1, k1.delayed))
  }

  lemma {:induction false} NothingDue(k: K, ts: seq<Task>)
    requires forall t :: t in ts ==> t in k.tcb && k.tick < k.tcb[t].wake
    ensures NaiveWake(k, ts) == k
    decreases |ts|
  {
    if ts != [] {
      NothingDue(k, ts[1..]);
    }
  }

  /** Two kernel states that agree but for the cache. */
  predicate SameButCache(k: K, k': K) {
    k'.(nextUnblock := 0) == k.(nextUnblock := 0)
  }

  lemma ScanHead(k: K, ts: seq<Task>)
    requires Scannable(k, ts) && ts != [] && k.tick < k.tcb[ts[0]].wake
    ensures forall t :: t in ts ==> t in k.tcb && k.tick < k.tcb[t].wake
  {
    forall t | t in ts ensures k.tick < k.tcb[t].wake {
      var i := IndexOf(ts, t);
    }
  }

  lemma {:induction false} ScanIsNaive(k: K, ts: seq<Task>)
    requires Scannable(k, ts)
    ensures SameButCache(WakeDue(k, ts), NaiveWake(k, ts))
    decreases |ts|
  {
    if ts == [] {
    } else if k.tick < k.tcb[ts[0]].wake {
      ScanHead(k, ts);
      NothingDue(k, ts);
    } else {
      var k1 := ScanNext(k, ts);
      ScanIsNaive(k1, ts[1..]);
      WakeUnfolds(k, ts, k1);
    }
  }

  lemma WakeUnfolds(k: K, ts: seq<Task>, k1: K)
    requires ts != [] && ts[0] in k.tcb && k.tcb[ts[0]].wake <= k.tick && k1 == Rouse(k, ts[0], State)
    ensures WakeDue(k, ts) == WakeDue(k1, ts[1..])
    ensures NaiveWake(k, ts) == NaiveWake(k1, ts[1..])
  {
  }

  /** The cached `NextTaskUnblockTime` lets the tick handler skip the scan and stop it early; the
      same tasks are readied in the same order as by scanning every delayed task at every tick. */
  lemma FastTickIsNaive(k: K)
    requires Inv(k)
    ensures SameButCache(ProcessTick(k), NaiveTick(k))
  {
    var k1 := AdvanceOk(k);
    var ts := Items(k1, k1.delayed);
    if k1.tick >= k1.nextUnblock {
      ScanIsNaive(k1, ts);
    } else {
      forall t | t in ts ensures t in k1.tcb && k1.tick < k1.tcb[t].wake {
        assert WakeOk(k1, t);
      }
      NothingDue(k1, ts);
    }
  }

  // ----- any number of ticks

  function NaiveTickN(k: K, n: nat): K
    decreases n
  {
    if n == 0 then k else NaiveTickN(NaiveTick(k), n - 1)
  }

  /** The naive tick does not read the cache. */
  lemma RouseCache(k: K, t: Task, next: nat)
    requires t in k.tcb
    ensures Rouse(k.(nextUnblock := next), t, State) == Rouse(k, t, State).(nextUnblock := next)
  {
    hide Take;
    TakeCache(k, State, t, next);
    TakeCache(Take(k, State, t), EventItem, t, next);
  }

  lemma TakeCache(k: K, kind: Kind, t: Task, next: nat)
    requires t in k.tcb
    ensures Take(k.(nextUnblock := next), kind, t) == Take(k, kind, t).(nextUnblock := next) &&
            t in Take(k, kind, t).tcb
  {
  }

  lemma {:induction false} NaiveWakeCache(k: K, ts: seq<Task>, next: nat)
    ensures NaiveWake(k.(nextUnblock := next), ts) == NaiveWake(k, ts).(nextUnblock := next)
    decreases |ts|
  {
    hide Rouse;
    if ts != [] {
      if ts[0] in k.tcb && k.tcb[ts[0]].wake <= k.tick {
        RouseCache(k, ts[0], next);
        NaiveWakeCache(Rouse(k, ts[0], State), ts[1..], next);
      } else {
        NaiveWakeCache(k, ts[1..], next);
      }
    }
  }

  lemma AdvanceCache(a: K, b: K)
    requires SameButCache(a, b)
    ensures SameButCache(AdvanceTick(a), AdvanceTick(b))
  {
  }

  lemma NaiveTickCache(a: K, b: K)
    requires SameButCache(a, b)
    ensures SameButCache(NaiveTick(a), NaiveTick(b))
  {
    var a1, b1 := AdvanceTick(a), AdvanceTick(b);
    AdvanceCache(a, b);
    NaiveWakeCache(a1, Items(a1, a1.delayed), 0);
    NaiveWakeCache(b1, Items(b1, b1.delayed), 0);
  }

  /** Whatever number of ticks is processed, the cache never makes a difference to who is ready when. */
  lemma {:induction false} FastTicksAreNaive(k: K, b: K, n: nat)
    requires Inv(k) && SameButCache(k, b)
    ensures SameButCache(TickN(k, n), NaiveTickN(b, n))
    decreases n
  {
    hide ProcessTick, NaiveTick, Inv;
    if n > 0 {
      FastTickIsNaive(k);
      NaiveTickCache(k, b);
      var k1 := ProcessTickInv(k);
      FastTicksAreNaive(k1, NaiveTick(b), n - 1);
      assert TickN(k, n) == TickN(k1, n - 1);
    }
  }

  // ----- boot

  /** The kernel as `TaskStartScheduler` finds it with one task created. */
  function Boot(t: Task, priority: nat): K {
    AddReady(Bare(t, priority), t)
  }

  function Bare(t: Task, priority: nat): K {
    K(map[], map[t := NewTcb(priority)], {}, t, DelayedTasks1, DelayedTasks2, 0, 0, MAX_DELAY, 0, 0, 1, 0, 0, map[])
  }

  lemma BootInv(t: Task, priority: nat)
    ensures Inv(Boot(t, priority)) && IsReady(Boot(t, priority), t)
  {
    var k := Bare(t, priority);
    BareOk(t, priority);
    var k' := AddReadyOk(k, t);
  }

  lemma BareOk(t: Task, priority: nat)
    ensures Core(Bare(t, priority)) && Bitmap(Bare(t, priority)) && NoneOverdue(Bare(t, priority))
  {
    assert Links(Bare(t, priority));
  }
}

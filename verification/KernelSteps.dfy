/** The kernel operations of `tasks.cpp`, one function per atomic stretch of code, and the proof
    that each keeps the invariant. */
module KernelSteps {
  import opened Basics
  import opened Rings
  import opened KernelModel

  // ----- time

  /** 32-bit addition on tick counts. */
  function Wrap(n: nat): (r: nat)
    ensures r < M && (n < M ==> r == n) && (M <= n < 2 * M ==> r == n - M)
  {
    n % M
  }

  function Head(k: K, id: ListId): Task
    requires Items(k, id) != []
  {
    Items(k, id)[0]
  }

  /** `ResetNextTaskUnblockTime`. */
  function ResetNext(k: K): K {
    k.(nextUnblock := if Items(k, k.delayed) == [] then MAX_DELAY else Keys(k, k.delayed)[0])
  }

  /** The second half of `AddCurrentTaskToDelayedList`: where the task goes once it is off its list. */
  function File(k: K, t: Task, ticks: nat, indefinitely: bool): K
    requires t in k.tcb
  {
    if ticks == MAX_DELAY && indefinitely then AppendTo(k, t, SuspendedTasks)
    else
      var wake := Wrap(k.tick + ticks);
      if wake < k.tick then InsertInto(Dated(k, t, ticks, k.nextUnblock), t, k.overflow)
      else InsertInto(Dated(k, t, ticks, Min(wake, k.nextUnblock)), t, k.delayed)
  }

  function Dated(k: K, t: Task, ticks: nat, next: nat): K
    requires t in k.tcb
  {
    k.(tcb := k.tcb[t := k.tcb[t].(wake := Wrap(k.tick + ticks))], due := k.due[t := k.clock + ticks],
        nextUnblock := next)
  }

  /** `AddCurrentTaskToDelayedList`. */
  function DelayCurrent(k: K, ticks: nat, indefinitely: bool): K
    requires k.current in k.tcb
  {
    var t := k.current;
    File(Unready(k.(tcb := k.tcb[t := k.tcb[t].(delayAborted := false)]), t), t, ticks, indefinitely)
  }

  /** Unlink both items of a task, in the order given, and make it ready. */
  function Rouse(k: K, t: Task, first: Kind): K
    requires t in k.tcb
  {
    AddReady(Take(Take(k, first, t), Other(first), t), t)
  }

  /** The loop of `TaskIncrementTick` over the delayed list, whose items are `ts`. */
  function WakeDue(k: K, ts: seq<Task>): K
    decreases |ts|
  {
    if ts == [] then k.(nextUnblock := MAX_DELAY)
    else if ts[0] !in k.tcb then k
    else if k.tick < k.tcb[ts[0]].wake then k.(nextUnblock := k.tcb[ts[0]].wake)
    else WakeDue(Rouse(k, ts[0], State), ts[1..])
  }

  function SwitchDelayedLists(k: K): K {
    ResetNext(k.(delayed := k.overflow, overflow := k.delayed, nOverflows := k.nOverflows + 1))
  }

  /** The tick count moves on, and the delay lists change places when it wraps. */
  function AdvanceTick(k: K): K {
    var k1 := k.(tick := Wrap(k.tick + 1), clock := k.clock + 1);
    if k1.tick == 0 then SwitchDelayedLists(k1) else k1
  }

  /** `TaskIncrementTick` while the scheduler runs. */
  function ProcessTick(k: K): K {
    var k1 := AdvanceTick(k);
    if k1.tick >= k1.nextUnblock then WakeDue(k1, Items(k1, k1.delayed)) else k1
  }

  // ----- proofs: rousing

  function Other(kind: Kind): Kind {
    if kind.State? then EventItem else State
  }

  predicate DroppedFrom(k: K, t: Task, c: Option<ListId>, k': K) {
    c.Some? && !c.value.Ready? ==>
      t in Items(k, c.value) && Items(k', c.value) == DropAt(Items(k, c.value), IndexOf(Items(k, c.value), t))
  }

  /** What rousing a task changes: its own items, and only the lists they were on. */
  ghost predicate Roused(k: K, t: Task, k': K)
    requires t in k.tcb
  {
    && k' == k.(lists := k'.lists, top := k.top +
       {k.tcb[t].prio}, tcb := k.tcb[t := k.tcb[t].(stateIn := Some(Ready(k.tcb[t].prio)), eventIn := None)])
    && (forall id :: id != Ready(k.tcb[t].prio) && Some(id) != k.tcb[t].stateIn && Some(id) != k.tcb[t].eventIn ==>
           ListOf(k', id) == ListOf(k, id))
    && DroppedFrom(k, t, k.tcb[t].stateIn, k') && DroppedFrom(k, t, k.tcb[t].eventIn, k')
  }

  lemma RousedBy(k: K, t: Task, first: Kind, k1: K, k2: K, k3: K)
    requires t in k.tcb && Taken(k, first, t, k1) && Taken(k1, Other(first), t, k2) && Readied(k2, t, k3)
    ensures Roused(k, t, k3)
  {
    RousedTcb(k, t, first, k1, k2, k3);
  }

  lemma RousedTcb(k: K, t: Task, first: Kind, k1: K, k2: K, k3: K)
    requires t in k.tcb && Taken(k, first, t, k1) && Taken(k1, Other(first), t, k2) && Readied(k2, t, k3)
    ensures k3.tcb == k.tcb[t := k.tcb[t].(stateIn := Some(Ready(k.tcb[t].prio)), eventIn := None)]
    ensures k2.tcb[t].prio == k.tcb[t].prio
  {
    assert k2.tcb == k.tcb[t := k.tcb[t].(stateIn := None, eventIn := None)];
  }

  lemma RouseOk(k: K, t: Task, first: Kind) returns (k': K)
    requires Core(k) && Bitmap(k) && t in k.tcb
    ensures k' == Rouse(k, t, first)
    ensures Core(k') && Bitmap(k') && (NoneOverdue(k) ==> NoneOverdue(k')) && Roused(k, t, k')
  {
    var k1 := TakeCore(k, first, t);
    TakenBitmap(k, first, t, k1);
    var k2 := TakeCore(k1, Other(first), t);
    TakenBitmap(k1, Other(first), t, k2);
    k' := AddReadyOk(k2, t);
    RousedBy(k, t, first, k1, k2, k');
  }

  // ----- proofs: the tick

  /** A task on one of the two delay lists. */
  predicate Blocked(k: K, t: Task) {
    t in k.tcb && (k.tcb[t].stateIn == Some(k.delayed) || k.tcb[t].stateIn == Some(k.overflow))
  }

  /** The tasks of `ts` that are due are ready and on no event list; nothing else has happened to
      any task. */
  ghost predicate Woken(k: K, ts: seq<Task>, k': K) {
    && k' == k.(lists := k'.lists, tcb := k'.tcb, top := k'.top, nextUnblock := k'.nextUnblock)
    && k'.tcb.Keys == k.tcb.Keys
    && (forall t :: t in k.tcb ==> k'.tcb[t] == if t in ts && k.tcb[t].wake <= k.tick then WokenTcb(k.tcb[t])
           else k.tcb[t])
    && (forall id: ListId :: !id.Ready? && id != k.delayed && KindOf(id).State? ==> ListOf(k', id) == ListOf(k, id))
  }

  function WokenTcb(tcb: Tcb): Tcb {
    tcb.(stateIn := Option.Some(Ready(tcb.prio)), eventIn := Option.None)
  }

  /** The delayed list as the wake-up loop sees it: sorted, and nothing on it earlier than now. */
  ghost predicate Scannable(k: K, ts: seq<Task>) {
    Core(k) && Bitmap(k) && ScanOrder(k, ts)
  }

  ghost predicate ScanOrder(k: K, ts: seq<Task>) {
    && ts == Items(k, k.delayed) && IsDelayList(k.delayed)
    && (forall t :: t in ts ==> t in k.tcb && k.tcb[t].stateIn == Some(k.delayed) && k.tick <= k.tcb[t].wake)
    && (forall i, j :: 0 <= i < j < |ts| ==> k.tcb[ts[i]].wake <= k.tcb[ts[j]].wake && ts[i] != ts[j])
  }

  lemma ScanNext(k: K, ts: seq<Task>) returns (k1: K)
    requires ts != [] && Scannable(k, ts)
    ensures k1 == Rouse(k, ts[0], State)
    ensures Scannable(k1, ts[1..]) && Roused(k, ts[0], k1)
  {
    k1 := RouseOk(k, ts[0], State);
    assert ts[0] in ts;
    ScanRest(k, ts, k1);
  }

  lemma ScanRest(k: K, ts: seq<Task>, k1: K)
    requires ts != [] && ScanOrder(k, ts) && ts[0] in k.tcb && Roused(k, ts[0], k1)
    ensures ScanOrder(k1, ts[1..])
  {
    hide Roused;
    var t := ts[0];
    DelayedRest(k, ts, k1);
    forall u | u in ts[1..] ensures u in k1.tcb && k1.tcb[u] == k.tcb[u] {
      var i :| 0 <= i < |ts[1..]| && ts[1..][i] == u;
      assert ts[i + 1] == u && ts[0] != ts[i + 1];
      RousedOthers(k, t, k1, u);
    }
  }

  lemma DelayedRest(k: K, ts: seq<Task>, k1: K)
    requires ts != [] && ScanOrder(k, ts) && ts[0] in k.tcb && Roused(k, ts[0], k1)
    ensures Items(k1, k1.delayed) == ts[1..] && k1.delayed == k.delayed && k1.tick == k.tick
  {
    var t := ts[0];
    assert t in ts && IndexOf(ts, t) == 0 && DropAt(ts, 0) == ts[1..];
  }

  lemma RousedOthers(k: K, t: Task, k1: K, u: Task)
    requires t in k.tcb && Roused(k, t, k1) && u != t && u in k.tcb
    ensures u in k1.tcb && k1.tcb[u] == k.tcb[u]
  {
  }

  /** Setting `NextTaskUnblockTime` to no more than any wake time of the delayed list. */
  lemma NextSet(k: K, k': K)
    requires Core(k) && k' == k.(nextUnblock := k'.nextUnblock) && k'.nextUnblock < M
    requires forall t :: t in k.tcb && k.tcb[t].stateIn == Some(k.delayed) ==> k'.nextUnblock <= k.tcb[t].wake
    ensures Core(k') && (NoneOverdue(k) ==> NoneOverdue(k')) && (Bitmap(k) ==> Bitmap(k'))
  {
    SameTasks(k, k');
    forall u | u in k'.tcb ensures WakeOk(k', u) {
      assert WakeOk(k, u);
    }
  }

  lemma DelayedMembers(k: K, t: Task)
    requires Links(k) && t in k.tcb && k.tcb[t].stateIn.Some?
    ensures t in Items(k, k.tcb[t].stateIn.value)
  {
    assert Linked(k, t, k.tcb[t].Container(State), State);
  }

  lemma ScanStops(k: K, ts: seq<Task>, k': K)
    requires Scannable(k, ts) && (ts == [] || k.tick < k.tcb[ts[0]].wake)
    requires k' == k.(nextUnblock := if ts == [] then MAX_DELAY else k.tcb[ts[0]].wake)
    ensures Core(k') && Bitmap(k') && NoneOverdue(k') && Woken(k, ts, k')
  {
    forall t | t in k.tcb && k.tcb[t].stateIn == Some(k.delayed)
      ensures k'.nextUnblock <= k.tcb[t].wake && k.tick < k.tcb[t].wake
    {
      DelayedMembers(k, t);
      assert WakeOk(k, t);
    }
    assert ts != [] ==> WakeOk(k, ts[0]);
    NextSet(k, k');
  }

  lemma WokenCons(k: K, ts: seq<Task>, k1: K, k': K)
    requires ts != [] && Scannable(k, ts) && k.tcb[ts[0]].wake <= k.tick
    requires Roused(k, ts[0], k1) && Woken(k1, ts[1..], k')
    ensures Woken(k, ts, k')
  {
    var t := ts[0];
    forall u | u in k.tcb ensures k'.tcb[u] == if u in ts &&
        k.tcb[u].wake <= k.tick then WokenTcb(k.tcb[u]) else k.tcb[u] {
      assert u in ts <==> u == t || u in ts[1..];
    }
    forall id: ListId | !id.Ready? && id != k.delayed && KindOf(id).State? ensures ListOf(k', id) == ListOf(k, id) {
      assert Linked(k, t, k.tcb[t].Container(EventItem), EventItem);
    }
  }

  lemma {:induction false} WakeDueOk(k: K, ts: seq<Task>) returns (k': K)
    requires Scannable(k, ts)
    ensures k' == WakeDue(k, ts)
    ensures Core(k') && Bitmap(k') && NoneOverdue(k') && Woken(k, ts, k')
    decreases |ts|
  {
    if ts == [] || k.tick < k.tcb[ts[0]].wake {
      k' := k.(nextUnblock := if ts == [] then MAX_DELAY else k.tcb[ts[0]].wake);
      ScanStops(k, ts, k');
    } else {
      var k1 := ScanNext(k, ts);
      k' := WakeDueOk(k1, ts[1..]);
      WokenCons(k, ts, k1, k');
    }
  }

  /** Just before the tick count wraps every task of the ending epoch has been woken: the lists
      change places with the current one empty. */
  lemma SwapFindsEmptyList(k: K)
    requires Core(k) && NoneOverdue(k) && k.tick == M - 1
    ensures Items(k, k.delayed) == []
  {
    if Items(k, k.delayed) != [] {
      DelayedTickBound(k, Items(k, k.delayed)[0]);
    }
  }

  lemma DelayedTickBound(k: K, t: Task)
    requires Core(k) && NoneOverdue(k) && t in Items(k, k.delayed)
    ensures k.tick < M - 1
  {
    assert WakeOk(k, t);
  }

  lemma AdvanceOk(k: K) returns (k': K)
    requires Core(k) && Bitmap(k) && NoneOverdue(k)
    ensures k' == AdvanceTick(k)
    ensures Scannable(k', Items(k', k'.delayed))
    ensures k' == k.(tick := k'.tick, clock := k.clock + 1, nOverflows := k'.nOverflows, nextUnblock := k'.nextUnblock,
                     delayed := k'.delayed, overflow := k'.overflow)
    ensures {k'.delayed, k'.overflow} == {k.delayed, k.overflow}
    ensures DueNow(k, k')
  {
    k' := AdvanceTick(k);
    if k.tick == M - 1 {
      SwapFindsEmptyList(k);
    }
    AdvanceCore(k, k');
    SortedScan(k');
    AdvanceDue(k, k');
  }

  /** The blocked tasks that are due at the new clock are those the wake-up loop takes. */
  ghost predicate DueNow(k: K, k': K) {
    forall t :: Blocked(k, t) ==>
      (t in k.due && k.clock < k.due[t] && (k.due[t] == k'.clock <==>
          t in Items(k', k'.delayed) && k.tcb[t].wake <= k'.tick))
  }

  lemma AdvanceDue(k: K, k': K)
    requires Core(k) && NoneOverdue(k) && Core(k') && k'.clock == k.clock + 1 && k'.tcb == k.tcb && k'.due == k.due
    requires {k'.delayed, k'.overflow} == {k.delayed, k.overflow}
    requires forall t :: t in k'.tcb && k'.tcb[t].stateIn == Some(k'.delayed) ==> k'.tick <= k'.tcb[t].wake
    ensures DueNow(k, k')
  {
    forall t | Blocked(k, t)
      ensures t in k.due && k.clock < k.due[t] &&
              (k.due[t] == k'.clock <==> t in Items(k', k'.delayed) && k.tcb[t].wake <= k'.tick)
    {
      assert WakeOk(k, t) && WakeOk(k', t);
      assert k.tcb[t].stateIn.value in {k'.delayed, k'.overflow};
      assert Linked(k', t, k'.tcb[t].Container(State), State);
    }
  }

  lemma AdvanceCore(k: K, k': K)
    requires Core(k) && NoneOverdue(k) && k' == AdvanceTick(k)
    ensures Core(k')
    ensures forall t :: t in k'.tcb && k'.tcb[t].stateIn == Some(k'.delayed) ==> k'.tick <= k'.tcb[t].wake
  {
    SameTasks(k, k');
    forall u | u in k'.tcb ensures WakeOk(k', u) &&
        (k'.tcb[u].stateIn == Some(k'.delayed) ==> k'.tick <= k'.tcb[u].wake) {
      AdvanceWakes(k, u);
    }
    AdvanceNext(k);
  }

  lemma AdvanceNext(k: K)
    requires Core(k)
    ensures AdvanceTick(k).nextUnblock < M
  {
    if Items(k, k.overflow) != [] {
      var u := Items(k, k.overflow)[0];
      assert u in Items(k, k.overflow) && WakeOk(k, u);
      assert Keys(k, k.overflow)[0] == k.tcb[u].wake;
    }
  }

  lemma AdvanceWakes(k: K, u: Task)
    requires Core(k) && NoneOverdue(k) && u in k.tcb
    ensures WakeOk(AdvanceTick(k), u)
    ensures k.tcb[u].stateIn == Some(AdvanceTick(k).delayed) ==> AdvanceTick(k).tick <= k.tcb[u].wake
  {
    assert WakeOk(k, u);
    if k.tick == M - 1 {
      SwapFindsEmptyList(k);
      assert Linked(k, u, k.tcb[u].Container(State), State);
      if k.tcb[u].stateIn == Some(k.overflow) {
        var i := IndexOf(Items(k, k.overflow), u);
        assert Keys(k, k.overflow)[0] <= Keys(k, k.overflow)[i];
      }
    }
  }

  lemma SortedScan(k: K)
    requires Core(k) && Bitmap(k)
    requires forall t :: t in k.tcb && k.tcb[t].stateIn == Some(k.delayed) ==> k.tick <= k.tcb[t].wake
    ensures Scannable(k, Items(k, k.delayed))
  {
    var ts := Items(k, k.delayed);
    assert NoDup(ts);
    forall i, j | 0 <= i < j < |ts| ensures k.tcb[ts[i]].wake <= k.tcb[ts[j]].wake && ts[i] != ts[j] {
      assert ts[i] in ts && ts[j] in ts;
      assert Keys(k, k.delayed)[i] <= Keys(k, k.delayed)[j];
    }
  }

  /** One processed tick. Exactly the blocked tasks whose true wake time is the new clock are
      readied, whatever the cached `NextTaskUnblockTime` and however often the count has wrapped. */
  lemma TickOk(k: K) returns (k': K)
    requires Core(k) && Bitmap(k) && NoneOverdue(k)
    ensures k' == ProcessTick(k)
    ensures Core(k') && Bitmap(k') && NoneOverdue(k')
    ensures k'.clock == k.clock + 1 && Ticked(k, k')
  {
    var k1 := AdvanceOk(k);
    var ts := Items(k1, k1.delayed);
    if k1.tick >= k1.nextUnblock {
      k' := WakeDueOk(k1, ts);
    } else {
      k' := k1;
      assert NoneOverdue(k') by {
        forall t | t in k1.tcb && k1.tcb[t].stateIn == Some(k1.delayed) ensures k1.tick < k1.tcb[t].wake {
          assert WakeOk(k1, t);
        }
      }
      assert forall t :: t in ts ==> k1.tick < k1.tcb[t].wake;
      assert Woken(k1, ts, k');
    }
    TickedBy(k, k1, ts, k');
  }

  ghost predicate Ticked(k: K, k': K) {
    && k' == k.(lists := k'.lists, tcb := k'.tcb, top := k'.top, tick := k'.tick, clock := k'.clock,
                nOverflows := k'.nOverflows, nextUnblock := k'.nextUnblock, delayed := k'.delayed,
                    overflow := k'.overflow)
    && {k'.delayed, k'.overflow} == {k.delayed, k.overflow}
    && k'.tcb.Keys == k.tcb.Keys
    && (forall t :: t in k.tcb ==> k'.tcb[t] == TickedTcb(k, t, k'.clock))
    && (forall id: ListId :: !id.Ready? && !IsDelayList(id) && KindOf(id).State? ==> ListOf(k', id) == ListOf(k, id))
  }

  /** The task after the clock has gone on to `clock`: readied if its wake time has come. */
  function TickedTcb(k: K, t: Task, clock: nat): Tcb
    requires t in k.tcb
  {
    if ComesDue(k, t, clock) then WokenTcb(k.tcb[t]) else k.tcb[t]
  }

  predicate ComesDue(k: K, t: Task, clock: nat) {
    Blocked(k, t) && t in k.due && k.clock < k.due[t] <= clock
  }

  lemma TickedBy(k: K, k1: K, ts: seq<Task>, k': K)
    requires Links(k) && Epochs(k) && IsDelayList(k1.delayed)
    requires k1 == k.(tick := k1.tick, clock := k.clock + 1, nOverflows := k1.nOverflows, nextUnblock := k1.nextUnblock,
                      delayed := k1.delayed, overflow := k1.overflow)
    requires {k1.delayed, k1.overflow} == {k.delayed, k.overflow}
    requires ts == Items(k1, k1.delayed) && Woken(k1, ts, k')
    requires DueNow(k, k1)
    ensures Ticked(k, k')
  {
    forall t | t in k.tcb ensures k'.tcb[t] == TickedTcb(k, t, k'.clock) {
      if t in ts {
        assert t in Items(k, k1.delayed);
        assert k.tcb[t].stateIn == Some(k1.delayed);
        assert k1.delayed in {k.delayed, k.overflow};
      }
    }
  }

  // ----- proofs: delaying the running task

  /** Filing a task in the delay list of the epoch it wakes in. */
  lemma EnlistOk(k: K, t: Task, id: ListId) returns (k': K)
    requires Core(k) && NoneOverdue(k) && t in k.tcb && Fileable(k, t, id)
    ensures k' == InsertInto(k, t, id)
    ensures Core(k') && NoneOverdue(k') && Joined(k, t, id, k')
  {
    var pos := InsertPos(Keys(k, id), k.tcb[t].wake);
    k' := Put(k, t, id, pos);
    PutLinks(k, t, id, pos);
    EnlistKeys(k, t, id, k');
    forall u | u in k'.tcb ensures WakeOk(k', u) && PriorityOk(k'.tcb[u]) {
      assert WakeOk(k, u) && PriorityOk(k.tcb[u]);
    }
  }

  lemma EnlistKeys(k: K, t: Task, id: ListId, k': K)
    requires Core(k) && t in k.tcb && Fileable(k, t, id) && k' == InsertInto(k, t, id) && Joined(k, t, id, k')
    ensures Sorted(Keys(k', k.delayed)) && Sorted(Keys(k', k.overflow))
  {
    var pos := InsertPos(Keys(k, id), k.tcb[t].wake);
    InsertIsStableSorted(Keys(k, id), k.tcb[t].wake);
    PutKeys(k, t, id, pos, k');
    KeysFrame(k, k', if id == k.delayed then k.overflow else k.delayed);
  }

  lemma PutKeys(k: K, t: Task, id: ListId, pos: nat, k': K)
    requires Links(k) && t in k.tcb && pos <= |Items(k, id)| && k' == Put(k, t, id, pos)
    ensures Keys(k', id) == InsertAt(Keys(k, id), pos, k.tcb[t].Key(KindOf(id)))
  {
    assert Items(k', id) == InsertAt(Items(k, id), pos, t);
    assert forall i :: 0 <= i < |Items(k, id)| ==> Items(k, id)[i] in Items(k, id);
    forall i | 0 <= i < |Items(k', id)| ensures Keys(k', id)[i] ==
        InsertAt(Keys(k, id), pos, k.tcb[t].Key(KindOf(id)))[i] {
      if i != pos {
        var u := Items(k, id)[if i < pos then i else i - 1];
        assert Items(k', id)[i] == u && u in Items(k, id);
      }
    }
  }

  /** What `Core` asks of a task about to be filed in the given delay list. */
  predicate Fileable(k: K, t: Task, id: ListId)
    requires t in k.tcb
  {
    && k.tcb[t].stateIn.None? && (id == k.delayed || id == k.overflow)
    && t in k.due && k.tcb[t].wake < M
    && k.due[t] == (if id == k.delayed then k.nOverflows else k.nOverflows + 1) * M + k.tcb[t].wake
    && (id == k.delayed ==> k.nextUnblock <= k.tcb[t].wake && k.tick < k.tcb[t].wake)
  }

  /** The wake time of a delay of `ticks`, computed in 32 bits, lies in the next epoch exactly when
      the addition wraps. */
  lemma DatedOk(k: K, t: Task, ticks: nat, next: nat) returns (k': K)
    requires Core(k) && NoneOverdue(k) && t in k.tcb && k.tcb[t].stateIn.None? && next <= k.nextUnblock && 0 < ticks < M
    requires k.tick <= Wrap(k.tick + ticks) ==> next <= Wrap(k.tick + ticks)
    ensures k' == Dated(k, t, ticks, next)
    ensures Core(k') && NoneOverdue(k') && (Bitmap(k) ==> Bitmap(k'))
    ensures Fileable(k', t, if Wrap(k.tick + ticks) < k.tick then k.overflow else k.delayed)
  {
    k' := Dated(k, t, ticks, next);
    LinksFrame(k, k');
    KeysFrame(k, k', k.delayed);
    KeysFrame(k, k', k.overflow);
    forall u | u in k'.tcb ensures WakeOk(k', u) && PriorityOk(k'.tcb[u]) {
      assert WakeOk(k, u) && PriorityOk(k.tcb[u]);
    }
  }

  /** Changing the fields of a task that neither its lists nor its wake time depend on. */
  lemma Relabelled(k: K, t: Task, tcb: Tcb) returns (k': K)
    requires Core(k) && t in k.tcb && PriorityOk(tcb)
    requires tcb.stateIn == k.tcb[t].stateIn && tcb.eventIn == k.tcb[t].eventIn && tcb.wake == k.tcb[t].wake
    ensures k' == k.(tcb := k.tcb[t := tcb])
    ensures Core(k') && (NoneOverdue(k) ==> NoneOverdue(k')) && (Bitmap(k) ==> Bitmap(k'))
    ensures forall q :: BitmapBut(k, q) ==> BitmapBut(k', q)
  {
    k' := k.(tcb := k.tcb[t := tcb]);
    LinksFrame(k, k');
    KeysFrame(k, k', k.delayed);
    KeysFrame(k, k', k.overflow);
    forall u | u in k'.tcb ensures WakeOk(k', u) && PriorityOk(k'.tcb[u]) {
      assert WakeOk(k, u) && PriorityOk(k.tcb[u]);
    }
  }

  predicate Runs(k: K) {
    k.current in k.tcb && k.tcb[k.current].stateIn == Some(Ready(k.tcb[k.current].prio))
  }

  ghost predicate Filed(k: K, t: Task, ticks: nat, indefinitely: bool, k': K)
    requires t in k.tcb
  {
    && k' == k.(lists := k'.lists, tcb := k'.tcb, nextUnblock := k'.nextUnblock, due := k'.due)
    && k'.tcb.Keys == k.tcb.Keys
    && (forall u :: u in k.tcb && u != t ==> k'.tcb[u] == k.tcb[u])
    && k'.tcb[t] == k.tcb[t].(stateIn := k'.tcb[t].stateIn, wake := k'.tcb[t].wake)
    && (if ticks == MAX_DELAY && indefinitely then k'.tcb[t].stateIn == Some(SuspendedTasks) && k'.due == k.due
        else Blocked(k', t) && k'.due == k.due[t := k.clock + ticks])
    && (forall id: ListId :: !IsDelayList(id) && !id.SuspendedTasks? ==> ListOf(k', id) == ListOf(k, id))
  }

  lemma FileOk(k: K, t: Task, ticks: nat, indefinitely: bool) returns (k': K)
    requires Core(k) && NoneOverdue(k) && t in k.tcb && k.tcb[t].stateIn.None? && 0 < ticks < M
    ensures k' == File(k, t, ticks, indefinitely)
    ensures Core(k') && NoneOverdue(k') && Filed(k, t, ticks, indefinitely, k')
  {
    var wake := Wrap(k.tick + ticks);
    if ticks == MAX_DELAY && indefinitely {
      k' := FileForever(k, t);
    } else if wake < k.tick {
      k' := FileAt(k, t, ticks, indefinitely, k.overflow, k.nextUnblock);
    } else {
      k' := FileAt(k, t, ticks, indefinitely, k.delayed, Min(wake, k.nextUnblock));
    }
  }

  lemma FileForever(k: K, t: Task) returns (k': K)
    requires Core(k) && NoneOverdue(k) && t in k.tcb && k.tcb[t].stateIn.None?
    ensures k' == AppendTo(k, t, SuspendedTasks)
    ensures Core(k') && NoneOverdue(k') && Filed(k, t, MAX_DELAY, true, k')
  {
    k' := AppendCore(k, t, SuspendedTasks);
  }

  lemma FileAt(k: K, t: Task, ticks: nat, indefinitely: bool, id: ListId, next: nat) returns (k': K)
    requires Core(k) && NoneOverdue(k) && t in k.tcb && k.tcb[t].stateIn.None? && 0 < ticks < M
    requires !(ticks == MAX_DELAY && indefinitely)
    requires id == (if Wrap(k.tick + ticks) < k.tick then k.overflow else k.delayed)
    requires next <= k.nextUnblock && (id == k.delayed ==> next <= Wrap(k.tick + ticks))
    ensures k' == InsertInto(Dated(k, t, ticks, next), t, id)
    ensures Core(k') && NoneOverdue(k') && Filed(k, t, ticks, indefinitely, k')
  {
    var k1 := DatedOk(k, t, ticks, next);
    k' := EnlistOk(k1, t, id);
    FiledBy(k, t, ticks, indefinitely, id, k1, k');
  }

  lemma FiledBy(k: K, t: Task, ticks: nat, indefinitely: bool, id: ListId, k1: K, k': K)
    requires t in k.tcb && t in k1.tcb && IsDelayList(id) && (id == k.delayed || id == k.overflow)
    requires !(ticks == MAX_DELAY && indefinitely)
    requires k1 == Dated(k, t, ticks, k1.nextUnblock) && Joined(k1, t, id, k')
    ensures Filed(k, t, ticks, indefinitely, k')
  {
  }

  lemma FiledBitmap(k: K, t: Task, ticks: nat, indefinitely: bool, k': K)
    requires t in k.tcb && Filed(k, t, ticks, indefinitely, k') && Bitmap(k)
    ensures Bitmap(k')
  {
    assert forall p :: ListOf(k', Ready(p)) == ListOf(k, Ready(p));
  }

  /** The running task blocks for at least one tick: the bitmap stays exact, and unless it waits for
      ever the task is filed to wake after exactly that many processed ticks. */
  lemma DelayCurrentOk(k: K, ticks: nat, indefinitely: bool) returns (k': K)
    requires Core(k) && Bitmap(k) && NoneOverdue(k) && Runs(k) && 0 < ticks < M
    ensures k' == DelayCurrent(k, ticks, indefinitely)
    ensures Core(k') && Bitmap(k') && NoneOverdue(k')
    ensures Parked(k, ticks, indefinitely, k')
  {
    var t := k.current;
    assert PriorityOk(k.tcb[t]);
    var k0 := Relabelled(k, t, k.tcb[t].(delayAborted := false));
    var k1 := UnreadyOk(k0, t);
    k' := FileOk(k1, t, ticks, indefinitely);
    FiledBitmap(k1, t, ticks, indefinitely, k');
    ParkedBy(k, ticks, indefinitely, k0, k1, k');
  }

  ghost predicate Parked(k: K, ticks: nat, indefinitely: bool, k': K)
    requires k.current in k.tcb
  {
    var t := k.current;
    && k' == k.(lists := k'.lists, tcb := k'.tcb, top := k'.top, nextUnblock := k'.nextUnblock, due := k'.due)
    && k'.tcb.Keys == k.tcb.Keys
    && (forall u :: u in k.tcb && u != t ==> k'.tcb[u] == k.tcb[u])
    && k'.tcb[t] == k.tcb[t].(stateIn := k'.tcb[t].stateIn, wake := k'.tcb[t].wake, delayAborted := false)
    && (if ticks == MAX_DELAY && indefinitely then k'.tcb[t].stateIn == Some(SuspendedTasks) && k'.due == k.due
        else Blocked(k', t) && k'.due == k.due[t := k.clock + ticks])
    && (forall id: ListId :: id.WaitingTermination? || KindOf(id).EventItem? ==> ListOf(k', id) == ListOf(k, id))
  }

  lemma ParkedBy(k: K, ticks: nat, indefinitely: bool, k0: K, k1: K, k': K)
    requires Runs(k)
    requires k0 == k.(tcb := k.tcb[k.current := k.tcb[k.current].(delayAborted := false)])
    requires k1 == k0.(lists := k1.lists, top := k1.top,
             tcb := k0.tcb[k.current := k0.tcb[k.current].(stateIn := None)])
    requires forall id: ListId :: !id.Ready? ==> ListOf(k1, id) == ListOf(k0, id)
    requires Filed(k1, k.current, ticks, indefinitely, k')
    ensures Parked(k, ticks, indefinitely, k')
  {
  }
}

/** All interleavings of tasks and interrupt handlers on one queue (`queue.cpp`, no queue set): no
    receiver is left waiting for an item that is there, and no sender for room that is there. */
module QueueProtocol {
  import Rings
  import opened QueueModel

  /** `Overwriting` sends never wait. */
  datatype Op = Receiving | Peeking | Sending | Overwriting

  predicate TakesItems(op: Op) {
    op.Receiving? || op.Peeking?
  }

  /** What a task does once it has unlocked the queue. */
  datatype Next = Wait | Retry | GiveUp

  /** Where a task is in its call. From `HalfLocked` to `Resuming` it has the scheduler suspended. */
  datatype Pc =
    | Idle
    | Trying(op: Op)
    | Locking(op: Op)
    | HalfLocked(op: Op)
    | Checking(op: Op)
    | Placing(op: Op)
    | Unlocking(op: Op, next: Next)
    | HalfUnlocked(op: Op, next: Next)
    | Resuming(op: Op, next: Next)
    | Waiting(op: Op)
    | GivingUp(op: Op)

  /** `locker` is the task that has suspended the scheduler. */
  datatype S = S(q: Q, pc: map<Task, Pc>, locker: set<Task>)

  datatype Step =
    // interrupt handlers
    | IsrSend(overwrite: bool)
    | IsrReceive
    | Timeout(t: Task)
    // tasks
    | Create(t: Task)
    | ResetQueue
    | Call(t: Task, op: Op)
    | Attempt(t: Task, patient: bool)
    | SuspendAndLockRx(t: Task)
    | LockTx(t: Task)
    | CheckTime(t: Task, expired: bool)
    | Place(t: Task, pos: nat)
    | UnlockFirst(t: Task)
    | UnlockSecond(t: Task)
    | Resume(t: Task)
    | LastLook(t: Task)

  function NumTasks(s: S): nat {
    |s.pc|
  }

  predicate OnAList(q: Q, t: Task) {
    t in q.rx || t in q.tx
  }

  function Without(waiting: seq<Task>, t: Task): (r: seq<Task>)
    ensures |r| <= |waiting|
  {
    if waiting == [] then [] else if waiting[0] == t then waiting[1..] else [waiting[0]] + Without(waiting[1..], t)
  }

  /** The queue is empty for a receiver, or full for a sender. */
  predicate Blocked(q: Q, op: Op) {
    if TakesItems(op) then q.n == 0 else q.n == q.length
  }

  predicate Ready(q: Q, op: Op) {
    match op
    case Receiving => q.n > 0
    case Peeking => q.n > 0
    case Sending => MaySend(q, false)
    case Overwriting => MaySend(q, true)
  }

  /** The critical section that each round of a call begins with, when it can do its work. */
  function Effect(q: Q, op: Op): Q
    requires Ready(q, op)
  {
    match op
    case Receiving => ReceiveNow(q)
    case Peeking => PeekNow(q)
    case Sending => SendNow(q, false)
    case Overwriting => SendNow(q, true)
  }

  predicate Enabled(s: S, step: Step) {
    match step
    case IsrSend(_) => true
    case IsrReceive => true
    case Timeout(t) => OnAList(s.q, t)
    case Create(t) => t !in s.pc && s.locker == {}
    case ResetQueue => s.locker == {}
    case Call(t, _) => t in s.pc && s.pc[t].Idle? && s.locker == {}
    case Attempt(t, _) =>
      t in s.pc && s.locker == {} && (s.pc[t].Trying? || (s.pc[t].Waiting? && !OnAList(s.q, t)))
    case SuspendAndLockRx(t) => t in s.pc && s.pc[t].Locking? && s.locker == {}
    case LockTx(t) => t in s.pc && s.pc[t].HalfLocked?
    case CheckTime(t, _) => t in s.pc && s.pc[t].Checking?
    case Place(t, pos) =>
      t in s.pc && s.pc[t].Placing? && pos <= if TakesItems(s.pc[t].op) then |s.q.rx| else |s.q.tx|
    case UnlockFirst(t) => t in s.pc && s.pc[t].Unlocking?
    case UnlockSecond(t) => t in s.pc && s.pc[t].HalfUnlocked?
    case Resume(t) => t in s.pc && s.pc[t].Resuming?
    case LastLook(t) => t in s.pc && s.pc[t].GivingUp? && s.locker == {}
  }

  /** A task that tries again is no longer one that has been woken and has yet to. */
  function Retried(q: Q, t: Task): Q {
    q.(wokenRx := q.wokenRx - {t}, wokenTx := q.wokenTx - {t})
  }

  function Do(s: S, step: Step): S
    requires Enabled(s, step)
  {
    match step
    case IsrSend(overwrite) => s.(q := SendFromIsr(s.q, overwrite, NumTasks(s)))
    case IsrReceive => s.(q := ReceiveFromIsr(s.q, NumTasks(s)))
    case Timeout(t) => s.(q := s.q.(rx := Without(s.q.rx, t), tx := Without(s.q.tx, t)))
    case Create(t) => s.(pc := s.pc[t := Idle])
    case ResetQueue => s.(q := Reset(s.q))
    case Call(t, op) => s.(pc := s.pc[t := Trying(op)])
    case Attempt(t, patient) =>
      var q1 := Retried(s.q, t);
      var op := s.pc[t].op;
      if Ready(q1, op) then S(Effect(q1, op), s.pc[t := Idle], {})
      else S(q1, s.pc[t := if patient then Locking(op) else Idle], {})
    case SuspendAndLockRx(t) => S(s.q.(rxLock := Lock(s.q.rxLock)), s.pc[t := HalfLocked(s.pc[t].op)], {t})
    case LockTx(t) => s.(q := s.q.(txLock := Lock(s.q.txLock)), pc := s.pc[t := Checking(s.pc[t].op)])
    case CheckTime(t, expired) =>
      var op := s.pc[t].op;
      s.(pc := s.pc[t := if expired then Unlocking(op, GiveUp)
          else if Blocked(s.q, op) then Placing(op) else Unlocking(op, Retry)])
    case Place(t, pos) =>
      var op := s.pc[t].op;
      s.(q := if TakesItems(op) then s.q.(rx := Rings.InsertAt(s.q.rx, pos, t))
          else s.q.(tx := Rings.InsertAt(s.q.tx, pos, t)),
         pc := s.pc[t := Unlocking(op, Wait)])
    case UnlockFirst(t) => s.(q := UnlockTx(s.q), pc := s.pc[t := HalfUnlocked(s.pc[t].op, s.pc[t].next)])
    case UnlockSecond(t) => s.(q := UnlockRx(s.q), pc := s.pc[t := Resuming(s.pc[t].op, s.pc[t].next)])
    case Resume(t) =>
      var op := s.pc[t].op;
      var pc := match s.pc[t].next case Wait => Waiting(op) case Retry => Trying(op) case GiveUp => GivingUp(op);
      S(s.q, s.pc[t := pc], {})
    case LastLook(t) =>
      var op := s.pc[t].op;
      s.(pc := s.pc[t := if TakesItems(op) && s.q.n > 0 then Trying(op) else Idle])
  }

  // ----- the invariant

  predicate HasLock(pc: Pc) {
    pc.HalfLocked? || pc.Checking? || pc.Placing? || pc.Unlocking? || pc.HalfUnlocked? || pc.Resuming?
  }

  /** On its list, or taken off it and not yet back in the critical section. */
  predicate Sleeping(pc: Pc) {
    pc.Waiting? || ((pc.Unlocking? || pc.HalfUnlocked? || pc.Resuming?) && pc.next.Wait?)
  }

  /** The lock counters as the locker's progress has left them. */
  predicate LocksOk(q: Q, pc: Pc) {
    && q.rxLock >= (if pc.Resuming? then -1 else 0)
    && (pc.Resuming? ==> q.rxLock == -1)
    && (if pc.HalfLocked? || pc.HalfUnlocked? || pc.Resuming? then q.txLock == -1 else q.txLock >= 0)
  }

  predicate Distinct(w: seq<Task>) {
    forall i, j :: 0 <= i < j < |w| ==> w[i] != w[j]
  }

  ghost predicate Locks(s: S) {
    && (s.locker == {} ==> s.q.rxLock == -1 && s.q.txLock == -1)
    && (forall t :: t in s.locker ==> t in s.pc && HasLock(s.pc[t]) && LocksOk(s.q, s.pc[t]))
    && (forall t :: t in s.pc && HasLock(s.pc[t]) ==> s.locker == {t})
    && s.q.rxLock <= NumTasks(s) && s.q.txLock <= NumTasks(s)
  }

  ghost predicate Lists(s: S) {
    && Distinct(s.q.rx) && Distinct(s.q.tx)
    && (forall t :: t in s.q.rx || t in s.q.wokenRx ==> t in s.pc && Sleeping(s.pc[t]) && TakesItems(s.pc[t].op))
    && (forall t :: t in s.q.tx || t in s.q.wokenTx ==> t in s.pc && Sleeping(s.pc[t]) && s.pc[t].op.Sending?)
    && (forall t :: t in s.q.wokenRx ==> t !in s.q.rx)
    && (forall t :: t in s.q.wokenTx ==> t !in s.q.tx)
    && (forall t :: t in s.pc && (s.pc[t].Locking? || HasLock(s.pc[t])) ==> !s.pc[t].op.Overwriting?)
  }

  /** Enough has been done, or is bound to be done at the unlock, about `available` items (or rooms):
      `credit` wake-ups are due, `woken` tasks are on their way, and `waiting` tasks wait. */
  predicate Provided(available: int, credit: int, woken: nat, waiting: nat) {
    waiting == 0 || waiting <= credit || available <= (if credit < 0 then 0 else credit) + woken
  }

  /** The look of the task about to go on the list is still good: what has come since is credited. */
  ghost predicate LookedOk(s: S) {
    forall t :: t in s.pc && s.pc[t].Placing? ==>
      if TakesItems(s.pc[t].op) then s.q.n <= s.q.txLock || NumTasks(s) <= s.q.txLock
      else s.q.length - s.q.n <= s.q.rxLock || NumTasks(s) <= s.q.rxLock
  }

  ghost predicate Inv(s: S) {
    && s.q.n <= s.q.length && 0 < s.q.length && NumTasks(s) <= 127
    && Locks(s) && Lists(s) && LookedOk(s)
    && Provided(s.q.n, s.q.txLock, |s.q.wokenRx|, |s.q.rx|)
    && Provided(s.q.length - s.q.n, s.q.rxLock, |s.q.wokenTx|, |s.q.tx|)
  }

  // ----- counting

  lemma SameCount(m: map<Task, Pc>, t: Task, pc: Pc)
    requires t in m
    ensures |m[t := pc]| == |m|
  {
    assert m[t := pc].Keys == m.Keys;
    assert |m[t := pc]| == |m[t := pc].Keys| && |m| == |m.Keys|;
  }

  lemma {:induction false} DistinctFit(w: seq<Task>, tasks: set<Task>)
    requires Distinct(w) && forall t :: t in w ==> t in tasks
    ensures |w| <= |tasks|
    decreases |w|
  {
    if w != [] {
      DistinctFit(w[1..], tasks - {w[0]});
    }
  }

  lemma WaitersFit(s: S)
    requires Lists(s)
    ensures |s.q.rx| <= NumTasks(s) && |s.q.tx| <= NumTasks(s)
  {
    DistinctFit(s.q.rx, s.pc.Keys);
    DistinctFit(s.q.tx, s.pc.Keys);
    assert |s.pc| == |s.pc.Keys|;
  }

  // ----- lists

  lemma WakeRxOk(s: S) returns (s': S)
    requires Lists(s)
    ensures s' == s.(q := WakeRx(s.q)) && Lists(s')
    ensures s.q.rx != [] ==> |s'.q.rx| == |s.q.rx| - 1 && |s'.q.wokenRx| == |s.q.wokenRx| + 1
  {
    s' := s.(q := WakeRx(s.q));
    if s.q.rx != [] {
      assert s.q.rx[0] in s.q.rx;
      assert forall t :: t in s'.q.rx ==> t in s.q.rx;
    }
  }

  lemma WakeTxOk(s: S) returns (s': S)
    requires Lists(s)
    ensures s' == s.(q := WakeTx(s.q)) && Lists(s')
    ensures s.q.tx != [] ==> |s'.q.tx| == |s.q.tx| - 1 && |s'.q.wokenTx| == |s.q.wokenTx| + 1
  {
    s' := s.(q := WakeTx(s.q));
    if s.q.tx != [] {
      assert s.q.tx[0] in s.q.tx;
      assert forall t :: t in s'.q.tx ==> t in s.q.tx;
    }
  }

  lemma {:induction false} UnlockTxOk(s: S) returns (s': S)
    requires Lists(s) && s.q.txLock >= 0 && Provided(s.q.n, s.q.txLock, |s.q.wokenRx|, |s.q.rx|)
    ensures s' == s.(q := UnlockTx(s.q)) && Lists(s')
    ensures s'.q == s.q.(txLock := -1, rx := s'.q.rx, wokenRx := s'.q.wokenRx)
    ensures Provided(s.q.n, -1, |s'.q.wokenRx|, |s'.q.rx|)
    decreases s.q.txLock
  {
    if s.q.txLock > 0 && s.q.rx != [] {
      var s1 := WakeRxOk(s);
      s' := UnlockTxOk(s1.(q := s1.q.(txLock := s.q.txLock - 1)));
    } else {
      s' := s.(q := s.q.(txLock := -1));
    }
  }

  lemma {:induction false} UnlockRxOk(s: S) returns (s': S)
    requires Lists(s) && s.q.rxLock >= 0 && Provided(s.q.length - s.q.n, s.q.rxLock, |s.q.wokenTx|, |s.q.tx|)
    ensures s' == s.(q := UnlockRx(s.q)) && Lists(s')
    ensures s'.q == s.q.(rxLock := -1, tx := s'.q.tx, wokenTx := s'.q.wokenTx)
    ensures Provided(s.q.length - s.q.n, -1, |s'.q.wokenTx|, |s'.q.tx|)
    decreases s.q.rxLock
  {
    if s.q.rxLock > 0 && s.q.tx != [] {
      var s1 := WakeTxOk(s);
      s' := UnlockRxOk(s1.(q := s1.q.(rxLock := s.q.rxLock - 1)));
    } else {
      s' := s.(q := s.q.(rxLock := -1));
    }
  }

  // ----- interrupt handlers

  lemma IsrSendInv(s: S, overwrite: bool) returns (s': S)
    requires Inv(s)
    ensures s' == s.(q := SendFromIsr(s.q, overwrite, NumTasks(s))) && Inv(s')
  {
    s' := s.(q := SendFromIsr(s.q, overwrite, NumTasks(s)));
    WaitersFit(s);
    if MaySend(s.q, overwrite) && s.q.txLock == -1 {
      var s1 := WakeRxOk(s.(q := Sent(s.q, overwrite)));
    }
  }

  lemma IsrReceiveInv(s: S) returns (s': S)
    requires Inv(s)
    ensures s' == s.(q := ReceiveFromIsr(s.q, NumTasks(s))) && Inv(s')
  {
    hide Distinct;
    s' := s.(q := ReceiveFromIsr(s.q, NumTasks(s)));
    WaitersFit(s);
    if s.q.n > 0 && s.q.rxLock == -1 {
      var s1 := WakeTxOk(s.(q := s.q.(n := s.q.n - 1)));
    }
  }

  lemma {:induction false} WithoutMembers(w: seq<Task>, t: Task)
    requires Distinct(w)
    ensures Distinct(Without(w, t)) && t !in Without(w, t)
    ensures forall u :: u in Without(w, t) ==> u in w
    decreases |w|
  {
    if w != [] {
      WithoutMembers(w[1..], t);
      assert forall i :: 0 <= i < |w[1..]| ==> w[1..][i] == w[i + 1];
      if w[0] != t {
        ConsDistinct(w[0], Without(w[1..], t));
      }
    }
  }

  lemma ConsDistinct(t: Task, w: seq<Task>)
    requires Distinct(w) && t !in w
    ensures Distinct([t] + w)
  {
  }

  lemma TimeoutInv(s: S, t: Task) returns (s': S)
    requires Inv(s)
    ensures s' == s.(q := s.q.(rx := Without(s.q.rx, t), tx := Without(s.q.tx, t))) && Inv(s')
  {
    s' := s.(q := s.q.(rx := Without(s.q.rx, t), tx := Without(s.q.tx, t)));
    WithoutMembers(s.q.rx, t);
    WithoutMembers(s.q.tx, t);
  }

  // ----- what a caller is told

  /** A round of a call does its work exactly if there is an item to take, or room for one, or the send is one
      that overwrites; otherwise the queue is as it was, but for the task's having tried. */
  lemma AttemptSucceedsIff(s: S, t: Task, patient: bool) returns (s': S)
    requires Enabled(s, Attempt(t, patient))
    ensures s' == Do(s, Attempt(t, patient))
    ensures var op, q, q' := s.pc[t].op, s.q, s'.q;
            && (if (TakesItems(op) && q.n > 0) || (op.Sending? && q.n < q.length) || op.Overwriting? then
                  && s'.pc[t].Idle?
                  && q'.n == (if op.Receiving? then q.n - 1
                              else if op.Peeking? || (op.Overwriting? && q.n > 0) then q.n else q.n + 1)
                else q' == Retried(q, t) && s'.pc[t] == if patient then Locking(op) else Idle)
  {
    s' := Do(s, Attempt(t, patient));
  }

  /** A receiver gives up only if there is no item at its last look; a sender never looks again. */
  lemma GivesUpIff(s: S, t: Task) returns (s': S)
    requires Enabled(s, LastLook(t))
    ensures s' == Do(s, LastLook(t)) && s'.q == s.q
    ensures s'.pc[t].Idle? <==> s.pc[t].op.Sending? || s.pc[t].op.Overwriting? || s.q.n == 0
    ensures !s'.pc[t].Idle? ==> s'.pc[t] == Trying(s.pc[t].op)
  {
    s' := Do(s, LastLook(t));
  }

  /** With the queue locked a task goes on to wait exactly if its time is not up and it finds no item, or no
      room; an interrupt handler that comes between counts its item and leaves the lists alone. */
  lemma WaitsIff(s: S, t: Task, expired: bool) returns (s': S)
    requires Enabled(s, CheckTime(t, expired))
    ensures s' == Do(s, CheckTime(t, expired)) && s'.q == s.q
    ensures s'.pc[t].Placing? <==> !expired && (if TakesItems(s.pc[t].op) then s.q.n == 0 else s.q.n == s.q.length)
    ensures s'.pc[t] == Unlocking(s.pc[t].op, GiveUp) <==> expired
  {
    s' := Do(s, CheckTime(t, expired));
  }

  lemma HandlersLeaveLists(q: Q, overwrite: bool, numTasks: nat)
    ensures q.txLock != -1 ==> var q' := SendFromIsr(q, overwrite, numTasks); q'.rx == q.rx && q'.wokenRx == q.wokenRx
    ensures q.rxLock != -1 ==> var q' := ReceiveFromIsr(q, numTasks); q'.tx == q.tx && q'.wokenTx == q.wokenTx
    ensures (q.n < q.length || overwrite) && q.txLock == -1 && q.rx != [] ==>
              SendFromIsr(q, overwrite, numTasks).rx == q.rx[1..]
    ensures q.n > 0 && q.rxLock == -1 && q.tx != [] ==> ReceiveFromIsr(q, numTasks).tx == q.tx[1..]
  {
  }

  // ----- tasks

  /** What a task that tries again leaves behind: it was in at most one of the two sets. */
  lemma RetriedOk(s: S, t: Task, pc: Pc) returns (s': S)
    requires Lists(s) && t in s.pc && (s.pc[t].Trying? || (s.pc[t].Waiting? && !OnAList(s.q, t)))
    requires pc.Idle? || (pc.Locking? && pc.op == s.pc[t].op && !pc.op.Overwriting?)
    ensures s' == S(Retried(s.q, t), s.pc[t := pc], {}) && Lists(s') && NumTasks(s') == NumTasks(s)
    ensures |s'.q.wokenRx| >= |s.q.wokenRx| - (if TakesItems(s.pc[t].op) then 1 else 0)
    ensures |s'.q.wokenTx| >= |s.q.wokenTx| - (if s.pc[t].op.Sending? then 1 else 0)
  {
    hide Lists;
    s' := S(Retried(s.q, t), s.pc[t := pc], {});
    RetriedLists(s, t, pc);
    SameCount(s.pc, t, pc);
    OneLess(s.q.wokenRx, t);
    OneLess(s.q.wokenTx, t);
  }

  lemma RetriedLists(s: S, t: Task, pc: Pc)
    requires Lists(s) && t in s.pc && (s.pc[t].Trying? || (s.pc[t].Waiting? && !OnAList(s.q, t)))
    requires pc.Idle? || (pc.Locking? && pc.op == s.pc[t].op && !pc.op.Overwriting?)
    ensures Lists(S(Retried(s.q, t), s.pc[t := pc], {}))
    ensures (t in s.q.wokenRx ==> TakesItems(s.pc[t].op)) && (t in s.q.wokenTx ==> s.pc[t].op.Sending?)
  {
  }

  lemma OneLess(woken: set<Task>, t: Task)
    ensures |woken - {t}| == |woken| - (if t in woken then 1 else 0)
  {
    if t in woken {
    } else {
      assert woken - {t} == woken;
    }
  }

  /** The state a task finds when it is alone in its critical section. */
  ghost predicate Calm(s: S) {
    && s.q.n <= s.q.length && 0 < s.q.length && NumTasks(s) <= 127 && Lists(s)
    && s.locker == {} && s.q.rxLock == -1 && s.q.txLock == -1
    && (forall t :: t in s.pc ==> !HasLock(s.pc[t]))
  }

  lemma CalmInv(s: S)
    requires Calm(s) && Provided(s.q.n, -1, |s.q.wokenRx|, |s.q.rx|) &&
             Provided(s.q.length - s.q.n, -1, |s.q.wokenTx|, |s.q.tx|)
    ensures Inv(s)
  {
  }

  lemma ListsIgnoreItems(s: S)
    requires Lists(s)
    ensures s.q.n > 0 ==> Lists(s.(q := s.q.(n := s.q.n - 1)))
    ensures forall overwrite :: Lists(s.(q := Sent(s.q, overwrite)))
  {
  }

  lemma EffectOk(s: S, op: Op) returns (s': S)
    requires Calm(s) && Ready(s.q, op)
    requires Provided(s.q.n, -1, |s.q.wokenRx| + (if TakesItems(op) then 1 else 0), |s.q.rx|)
    requires Provided(s.q.length - s.q.n, -1, |s.q.wokenTx| + (if op.Sending? then 1 else 0), |s.q.tx|)
    ensures s' == s.(q := Effect(s.q, op)) && Inv(s')
  {
    hide Inv, Lists;
    ListsIgnoreItems(s);
    match op {
      case Receiving => s' := WakeTxOk(s.(q := s.q.(n := s.q.n - 1)));
      case Peeking => s' := WakeRxOk(s);
      case Sending => s' := WakeRxOk(s.(q := Sent(s.q, false)));
      case Overwriting => s' := WakeRxOk(s.(q := Sent(s.q, true)));
    }
    CalmInv(s');
  }

  lemma AttemptInv(s: S, t: Task, patient: bool) returns (s': S)
    requires Inv(s) && Enabled(s, Attempt(t, patient))
    ensures s' == Do(s, Attempt(t, patient)) && Inv(s')
  {
    hide Lists, Effect;
    s' := Do(s, Attempt(t, patient));
    var s1 := RetriedOk(s, t, s'.pc[t]);
    assert Calm(s1);
    if Ready(s1.q, s.pc[t].op) {
      var s2 := EffectOk(s1, s.pc[t].op);
    } else {
      CalmInv(s1);
    }
  }

  lemma CreateInv(s: S, t: Task) returns (s': S)
    requires Inv(s) && Enabled(s, Create(t)) && NumTasks(s) < 127
    ensures s' == Do(s, Create(t)) && Inv(s')
  {
    CreatedLists(s, t);
    hide Lists, Provided;
    s' := s.(pc := s.pc[t := Idle]);
    assert s'.pc.Keys == s.pc.Keys + {t};
    assert |s'.pc| == |s'.pc.Keys| && |s.pc| == |s.pc.Keys|;
  }

  lemma CreatedLists(s: S, t: Task)
    requires Lists(s) && t !in s.pc
    ensures Lists(s.(pc := s.pc[t := Idle]))
  {
    hide Distinct;
  }

  /** `Reset` makes room for `length` items but wakes one sender. That is enough if nobody else waits, or if
      as many senders are on their way as there is room. */
  predicate ResetSuffices(q: Q) {
    |q.tx| <= 1 || q.length <= |q.wokenTx + {q.tx[0]}|
  }

  /** Exactly then are the senders provided for. */
  lemma ResetTellsOne(q: Q)
    requires 0 < q.length
    ensures Provided(q.length, -1, |Reset(q).wokenTx|, |Reset(q).tx|) <==> ResetSuffices(q)
  {
  }

  lemma ResetInv(s: S) returns (s': S)
    requires Inv(s) && Enabled(s, ResetQueue) && ResetSuffices(s.q)
    ensures s' == Do(s, ResetQueue) && Inv(s')
  {
    var s1 := s.(q := s.q.(n := 0, rxLock := -1, txLock := -1));
    s' := WakeTxOk(s1);
    ResetTellsOne(s.q);
    CalmInv(s');
  }

  /** Steps outside the locked stretch that leave the queue alone. */
  lemma MoveInv(s: S, t: Task, pc: Pc) returns (s': S)
    requires Inv(s) && s.locker == {} && t in s.pc && !Sleeping(s.pc[t]) && !HasLock(pc) && !pc.Locking?
    ensures s' == s.(pc := s.pc[t := pc]) && Inv(s')
  {
    s' := s.(pc := s.pc[t := pc]);
    SameCount(s.pc, t, pc);
  }

  lemma LockRxInv(s: S, t: Task) returns (s': S)
    requires Inv(s) && Enabled(s, SuspendAndLockRx(t))
    ensures s' == Do(s, SuspendAndLockRx(t)) && Inv(s')
  {
    s' := Do(s, SuspendAndLockRx(t));
    SameCount(s.pc, t, s'.pc[t]);
  }

  lemma LockTxInv(s: S, t: Task) returns (s': S)
    requires Inv(s) && Enabled(s, LockTx(t))
    ensures s' == Do(s, LockTx(t)) && Inv(s')
  {
    s' := Do(s, LockTx(t));
    SameCount(s.pc, t, s'.pc[t]);
  }

  lemma CheckTimeInv(s: S, t: Task, expired: bool) returns (s': S)
    requires Inv(s) && Enabled(s, CheckTime(t, expired))
    ensures s' == Do(s, CheckTime(t, expired)) && Inv(s')
  {
    s' := Do(s, CheckTime(t, expired));
    SameCount(s.pc, t, s'.pc[t]);
  }

  lemma InsertDistinct(w: seq<Task>, pos: nat, t: Task)
    requires Distinct(w) && t !in w && pos <= |w|
    ensures Distinct(Rings.InsertAt(w, pos, t)) && |Rings.InsertAt(w, pos, t)| == |w| + 1
    ensures forall u :: u in Rings.InsertAt(w, pos, t) <==> u in w || u == t
  {
    var r := Rings.InsertAt(w, pos, t);
    forall u ensures u in r <==> u in w || u == t {
      if u in w {
        var i :| 0 <= i < |w| && w[i] == u;
        assert r[if i < pos then i else i + 1] == u;
      }
      if u == t {
        assert r[pos] == u;
      }
    }
  }

  lemma PlaceLists(s: S, t: Task, pos: nat) returns (s': S)
    requires Inv(s) && Enabled(s, Place(t, pos))
    ensures s' == Do(s, Place(t, pos)) && Lists(s') && NumTasks(s') == NumTasks(s)
  {
    s' := Do(s, Place(t, pos));
    SameCount(s.pc, t, s'.pc[t]);
    if TakesItems(s.pc[t].op) {
      InsertDistinct(s.q.rx, pos, t);
    } else {
      InsertDistinct(s.q.tx, pos, t);
    }
  }

  /** Going on the list: whatever has come since the look is credited to the counter. */
  lemma PlaceInv(s: S, t: Task, pos: nat) returns (s': S)
    requires Inv(s) && Enabled(s, Place(t, pos))
    ensures s' == Do(s, Place(t, pos)) && Inv(s')
  {
    s' := PlaceLists(s, t, pos);
    WaitersFit(s');
  }

  lemma UnlockFirstInv(s: S, t: Task) returns (s': S)
    requires Inv(s) && Enabled(s, UnlockFirst(t))
    ensures s' == Do(s, UnlockFirst(t)) && Inv(s')
  {
    hide Lists, UnlockTx, Provided;
    var pc := HalfUnlocked(s.pc[t].op, s.pc[t].next);
    var s1 := UnlockTxOk(s);
    UnlockLists(s1, t, pc);
    s' := s1.(pc := s.pc[t := pc]);
    SameCount(s.pc, t, pc);
  }

  /** A task that goes on unlocking is on its list if it was. */
  lemma UnlockLists(s: S, t: Task, pc: Pc)
    requires Lists(s) && t in s.pc && HasLock(s.pc[t]) && HasLock(pc)
    requires pc.op == s.pc[t].op && (Sleeping(pc) <==> Sleeping(s.pc[t]))
    ensures Lists(s.(pc := s.pc[t := pc]))
  {
    hide Distinct;
  }

  lemma UnlockSecondInv(s: S, t: Task) returns (s': S)
    requires Inv(s) && Enabled(s, UnlockSecond(t))
    ensures s' == Do(s, UnlockSecond(t)) && Inv(s')
  {
    hide Lists, UnlockRx, Provided;
    var pc := Resuming(s.pc[t].op, s.pc[t].next);
    var s1 := UnlockRxOk(s);
    UnlockLists(s1, t, pc);
    s' := s1.(pc := s.pc[t := pc]);
    SameCount(s.pc, t, pc);
  }

  lemma ResumeInv(s: S, t: Task) returns (s': S)
    requires Inv(s) && Enabled(s, Resume(t))
    ensures s' == Do(s, Resume(t)) && Inv(s')
  {
    s' := Do(s, Resume(t));
    SameCount(s.pc, t, s'.pc[t]);
  }

  lemma StepInv(s: S, step: Step) returns (s': S)
    requires Inv(s) && Enabled(s, step) && (step.Create? ==> NumTasks(s) < 127) &&
             (step.ResetQueue? ==> ResetSuffices(s.q))
    ensures s' == Do(s, step) && Inv(s')
  {
    match step
    case IsrSend(overwrite) => s' := IsrSendInv(s, overwrite);
    case IsrReceive => s' := IsrReceiveInv(s);
    case Timeout(t) => s' := TimeoutInv(s, t);
    case Create(t) => s' := CreateInv(s, t);
    case ResetQueue => s' := ResetInv(s);
    case Call(t, op) => s' := MoveInv(s, t, Trying(op));
    case Attempt(t, patient) => s' := AttemptInv(s, t, patient);
    case SuspendAndLockRx(t) => s' := LockRxInv(s, t);
    case LockTx(t) => s' := LockTxInv(s, t);
    case CheckTime(t, expired) => s' := CheckTimeInv(s, t, expired);
    case Place(t, pos) => s' := PlaceInv(s, t, pos);
    case UnlockFirst(t) => s' := UnlockFirstInv(s, t);
    case UnlockSecond(t) => s' := UnlockSecondInv(s, t);
    case Resume(t) => s' := ResumeInv(s, t);
    case LastLook(t) => s' := MoveInv(s, t, Do(s, LastLook(t)).pc[t]);
  }

  // ----- runs

  ghost predicate Run(s: S, steps: seq<Step>, s': S)
    decreases |steps|
  {
    if steps == [] then s' == s else Enabled(s, steps[0]) && Run(Do(s, steps[0]), steps[1..], s')
  }

  /** A queue with n items, and no task yet. */
  function Start(n: nat, length: nat): S {
    S(Q(n, length, -1, -1, [], [], {}, {}), map[], {})
  }

  lemma CountGrows(s: S, step: Step)
    requires Enabled(s, step)
    ensures NumTasks(s) <= NumTasks(Do(s, step)) <= NumTasks(s) + 1
    ensures step.Create? ==> NumTasks(Do(s, step)) == NumTasks(s) + 1
  {
    if step.Create? {
      assert Do(s, step).pc.Keys == s.pc.Keys + {step.t};
    } else if Do(s, step).pc != s.pc {
      var t := step.t;
      SameCount(s.pc, t, Do(s, step).pc[t]);
    }
    assert |Do(s, step).pc| == |Do(s, step).pc.Keys| && |s.pc| == |s.pc.Keys|;
  }

  lemma {:induction false} CountGrowsInRun(s: S, steps: seq<Step>, s': S)
    requires Run(s, steps, s')
    ensures NumTasks(s) <= NumTasks(s')
    decreases |steps|
  {
    if steps != [] {
      CountGrows(s, steps[0]);
      CountGrowsInRun(Do(s, steps[0]), steps[1..], s');
    }
  }

  /** Every reset of the run comes when waking one sender is enough. */
  ghost predicate GoodResets(s: S, steps: seq<Step>)
    decreases |steps|
  {
    steps == [] || (Enabled(s, steps[0]) && (steps[0].ResetQueue? ==> ResetSuffices(s.q)) &&
        GoodResets(Do(s, steps[0]), steps[1..]))
  }

  lemma {:induction false} RunInv(s: S, steps: seq<Step>, s': S)
    requires Inv(s) && Run(s, steps, s') && GoodResets(s, steps) && NumTasks(s') <= 127
    ensures Inv(s')
    decreases |steps|
  {
    if steps != [] {
      CountGrows(s, steps[0]);
      CountGrowsInRun(Do(s, steps[0]), steps[1..], s');
      var s1 := StepInv(s, steps[0]);
      RunInv(s1, steps[1..], s');
    }
  }

  /** A receiver waits although an item is there and nobody has been sent for it; or a sender although
      there is room. */
  ghost predicate LostWakeup(s: S) {
    && s.locker == {}
    && ((s.q.rx != [] && s.q.n > |s.q.wokenRx|) || (s.q.tx != [] && s.q.length - s.q.n > |s.q.wokenTx|))
  }

  /** With at most 127 tasks no wake-up is ever lost, however sends, receives, peeks and time-outs of
      tasks and interrupt handlers interleave, as long as the queue is not reset under several senders. */
  lemma NoLostWakeup(n: nat, length: nat, steps: seq<Step>, s: S)
    requires n <= length && 0 < length && Run(Start(n, length), steps, s) && NumTasks(s) <= 127
    requires GoodResets(Start(n, length), steps)
    ensures !LostWakeup(s)
    ensures s.q.rx != [] && s.q.txLock >= 0 ==> s.q.n <= s.q.txLock + |s.q.wokenRx| || |s.q.rx| <= s.q.txLock
    ensures s.q.tx != [] && s.q.rxLock >= 0 ==>
            s.q.length - s.q.n <= s.q.rxLock + |s.q.wokenTx| || |s.q.tx| <= s.q.rxLock
  {
    CountGrowsInRun(Start(n, length), steps, s);
    RunInv(Start(n, length), steps, s);
  }

  // ----- beyond 127 tasks

  lemma {:induction false} Extend(s: S, steps: seq<Step>, s1: S, step: Step)
    requires Run(s, steps, s1) && Enabled(s1, step)
    ensures Run(s, steps + [step], Do(s1, step))
    ensures GoodResets(s, steps) && !step.ResetQueue? ==> GoodResets(s, steps + [step])
    decreases |steps|
  {
    if steps == [] {
      assert Run(Do(s, step), [], Do(s1, step));
    } else {
      Extend(Do(s, steps[0]), steps[1..], s1, step);
      assert (steps + [step])[1..] == steps[1..] + [step];
    }
  }

  ghost predicate GoodRun(s: S, steps: seq<Step>, s': S) {
    Run(s, steps, s') && GoodResets(s, steps)
  }

  /** An empty queue for one item, and tasks 0 to count - 1, task 0 being at `pc` in a call. */
  function Tasks(count: nat, pc: Pc): map<Task, Pc> {
    map t | t in FirstTasks(count) :: if t == 0 then pc else Idle
  }

  function FirstTasks(count: nat): (r: set<Task>)
    ensures forall t: Task :: t in r <==> t < count
    ensures |r| == count
  {
    if count == 0 then {} else FirstTasks(count - 1) + {count - 1}
  }

  function Locked(rxLock: int, txLock: int, n: nat, rx: seq<Task>): Q {
    Q(n, 1, rxLock, txLock, rx, [], {}, {})
  }

  lemma {:induction false} CreateAll(count: nat) returns (steps: seq<Step>)
    ensures GoodRun(Start(0, 1), steps, S(Locked(-1, -1, 0, []), Tasks(count, Idle), {}))
  {
    if count == 0 {
      steps := [];
      assert Tasks(0, Idle) == map[];
    } else {
      var before := CreateAll(count - 1);
      steps := before + [Create(count - 1)];
      Extend(Start(0, 1), before, S(Locked(-1, -1, 0, []), Tasks(count - 1, Idle), {}), Create(count - 1));
      assert Tasks(count, Idle) == Tasks(count - 1, Idle)[count - 1 := Idle];
    }
  }

  lemma CountOf(count: nat, pc: Pc)
    ensures |Tasks(count, pc)| == count
  {
    assert Tasks(count, pc).Keys == FirstTasks(count);
    assert |Tasks(count, pc)| == |Tasks(count, pc).Keys|;
  }

  /** One step of task 0. */
  lemma Moves(s: S, steps: seq<Step>, count: nat, pc: Pc, q: Q, locker: set<Task>, step: Step, pc': Pc, q': Q,
      locker': set<Task>)
    returns (steps': seq<Step>)
    requires count > 0 && GoodRun(s, steps, S(q, Tasks(count, pc), locker)) &&
             Enabled(S(q, Tasks(count, pc), locker), step)
    requires !step.ResetQueue? && Do(S(q, Tasks(count, pc), locker), step) == S(q', Tasks(count, pc)[0 := pc'], locker')
    ensures GoodRun(s, steps', S(q', Tasks(count, pc'), locker')) && AtFirst(count, pc')
  {
    FirstMoves(count, pc, pc');
    Extend(s, steps, S(q, Tasks(count, pc), locker), step);
    hide GoodResets, Run, Tasks;
    steps' := steps + [step];
  }

  lemma FirstMoves(count: nat, pc: Pc, pc': Pc)
    requires count > 0
    ensures Tasks(count, pc)[0 := pc'] == Tasks(count, pc') && AtFirst(count, pc) && AtFirst(count, pc')
  {
  }

  predicate AtFirst(count: nat, pc: Pc) {
    0 in Tasks(count, pc) && Tasks(count, pc)[0] == pc
  }

  /** Task 0 finds the queue empty and is about to go on the list. */
  lemma ReachPlacing(count: nat) returns (steps: seq<Step>)
    requires count > 0
    ensures GoodRun(Start(0, 1), steps, S(Locked(0, 0, 0, []), Tasks(count, Placing(Receiving)), {0}))
  {
    hide Tasks, GoodRun;
    var s := Start(0, 1);
    var free := Locked(-1, -1, 0, []);
    steps := CreateAll(count);
    FirstMoves(count, Idle, Idle);
    steps := Moves(s, steps, count, Idle, free, {}, Call(0, Receiving), Trying(Receiving), free, {});
    steps := Moves(s, steps, count, Trying(Receiving), free, {}, Attempt(0, true), Locking(Receiving), free, {});
    steps := LocksAndLooks(count, steps);
  }

  lemma LocksAndLooks(count: nat, before: seq<Step>) returns (steps: seq<Step>)
    requires count > 0 && GoodRun(Start(0, 1), before, S(Locked(-1, -1, 0, []), Tasks(count, Locking(Receiving)), {}))
    requires AtFirst(count, Locking(Receiving))
    ensures GoodRun(Start(0, 1), steps, S(Locked(0, 0, 0, []), Tasks(count, Placing(Receiving)), {0}))
  {
    hide Tasks, GoodRun;
    var s := Start(0, 1);
    var free := Locked(-1, -1, 0, []);
    steps := before;
    steps := Moves(s, steps, count, Locking(Receiving), free, {}, SuspendAndLockRx(0), HalfLocked(Receiving),
        Locked(0, -1, 0, []), {0});
    steps := Moves(s, steps, count, HalfLocked(Receiving), Locked(0, -1, 0, []), {0}, LockTx(0), Checking(Receiving),
        Locked(0, 0, 0, []), {0});
    steps := Moves(s, steps, count, Checking(Receiving), Locked(0, 0, 0, []), {0}, CheckTime(0, false),
        Placing(Receiving), Locked(0, 0, 0, []), {0});
  }

  lemma OneMore(count: nat, k: nat, s: S) returns (s1: S)
    requires 128 <= count < 0xffff_ffff_ffff_ff00 && k < 127
    requires s == S(Locked(k, k, 0, []), Tasks(count, Placing(Receiving)), {0})
    ensures s1 == Do(s, IsrSend(false))
    ensures Do(s1, IsrReceive) == s.(q := Locked(k + 1, k + 1, 0, []))
  {
    CountOf(count, Placing(Receiving));
    s1 := Do(s, IsrSend(false));
    assert s1.q == Locked(k, k + 1, 1, []);
  }

  /** Meanwhile interrupt handlers send and receive k items. */
  lemma {:induction false} Traffic(count: nat, k: nat) returns (steps: seq<Step>)
    requires 128 <= count < 0xffff_ffff_ffff_ff00 && k <= 127
    ensures GoodRun(Start(0, 1), steps, S(Locked(k, k, 0, []), Tasks(count, Placing(Receiving)), {0}))
  {
    if k == 0 {
      steps := ReachPlacing(count);
    } else {
      var before := Traffic(count, k - 1);
      var s := S(Locked(k - 1, k - 1, 0, []), Tasks(count, Placing(Receiving)), {0});
      var s1 := OneMore(count, k - 1, s);
      Extend(Start(0, 1), before, s, IsrSend(false));
      Extend(Start(0, 1), before + [IsrSend(false)], s1, IsrReceive);
      steps := before + [IsrSend(false)] + [IsrReceive];
    }
  }

  lemma OneSendTooMany(count: nat) returns (steps: seq<Step>)
    requires 128 <= count < 0xffff_ffff_ffff_ff00
    ensures GoodRun(Start(0, 1), steps, S(Locked(127, -128, 1, []), Tasks(count, Placing(Receiving)), {0}))
  {
    CountOf(count, Placing(Receiving));
    var before := Traffic(count, 127);
    var s0 := S(Locked(127, 127, 0, []), Tasks(count, Placing(Receiving)), {0});
    CounterWraps(count, s0);
    Extend(Start(0, 1), before, s0, IsrSend(false));
    steps := before + [IsrSend(false)];
  }

  lemma CounterWraps(count: nat, s: S)
    requires 128 <= count < 0xffff_ffff_ffff_ff00 && NumTasks(s) == count && s.q == Locked(127, 127, 0, [])
    ensures Do(s, IsrSend(false)) == s.(q := Locked(127, -128, 1, []))
  {
    assert Int8(128) == -128;
  }

  /** From 128 tasks on the 8-bit counter can wrap to a negative value, and the unlock then wakes
      nobody: a receiver waits with an item in the queue. */
  lemma WakeupCanBeLost(count: nat) returns (steps: seq<Step>, s: S)
    requires 128 <= count < 0xffff_ffff_ffff_ff00
    ensures GoodRun(Start(0, 1), steps, s) && NumTasks(s) == count && LostWakeup(s)
  {
    CountOf(count, Waiting(Receiving));
    var before := OneSendTooMany(count);
    steps := ParksAnyway(count, before);
    s := S(Locked(-1, -1, 1, [0]), Tasks(count, Waiting(Receiving)), {});
  }

  lemma ParksAnyway(count: nat, before: seq<Step>) returns (steps: seq<Step>)
    requires count > 0 && GoodRun(Start(0, 1), before,
             S(Locked(127, -128, 1, []), Tasks(count, Placing(Receiving)), {0}))
    ensures GoodRun(Start(0, 1), steps, S(Locked(-1, -1, 1, [0]), Tasks(count, Waiting(Receiving)), {}))
  {
    hide Tasks, GoodRun;
    var a, q := Start(0, 1), Locked(127, -128, 1, []);
    FirstMoves(count, Placing(Receiving), Placing(Receiving));
    steps := before;
    steps := Moves(a, steps, count, Placing(Receiving), q, {0}, Place(0, 0), Unlocking(Receiving, Wait), q.(rx := [0]),
        {0});
    steps := Moves(a, steps, count, Unlocking(Receiving, Wait), q.(rx := [0]), {0},
                   UnlockFirst(0), HalfUnlocked(Receiving, Wait), q.(rx := [0], txLock := -1), {0});
    steps := FinishesUnlock(count, steps, q.(rx := [0], txLock := -1));
  }

  lemma FinishesUnlock(count: nat, before: seq<Step>, q: Q) returns (steps: seq<Step>)
    requires count > 0 && GoodRun(Start(0, 1), before, S(q, Tasks(count, HalfUnlocked(Receiving, Wait)), {0}))
    requires AtFirst(count, HalfUnlocked(Receiving, Wait)) && q == Locked(127, -1, 1, [0])
    ensures GoodRun(Start(0, 1), steps, S(Locked(-1, -1, 1, [0]), Tasks(count, Waiting(Receiving)), {}))
  {
    hide Tasks, GoodRun;
    var a := Start(0, 1);
    steps := before;
    steps := Moves(a, steps, count, HalfUnlocked(Receiving, Wait), q, {0},
                   UnlockSecond(0), Resuming(Receiving, Wait), Locked(-1, -1, 1, [0]), {0});
    steps := Moves(a, steps, count, Resuming(Receiving, Wait), Locked(-1, -1, 1, [0]), {0},
                   Resume(0), Waiting(Receiving), Locked(-1, -1, 1, [0]), {});
  }

  /** A run with that many tasks that ends in a lost wake-up. */
  ghost predicate Loses(count: nat, n: nat, length: nat, steps: seq<Step>, s: S) {
    n <= length && 0 < length && GoodRun(Start(n, length), steps, s) && NumTasks(s) == count && LostWakeup(s)
  }

  /** The two together: 127 is the exact limit. */
  lemma ExactLimit(count: nat)
    requires count < 0xffff_ffff_ffff_ff00
    ensures (exists n, length, steps, s :: Loses(count, n, length, steps, s)) <==> 128 <= count
  {
    if 128 <= count {
      var steps, s := WakeupCanBeLost(count);
      assert Loses(count, 0, 1, steps, s);
    } else {
      forall n, length, steps, s | Loses(count, n, length, steps, s) ensures false {
        NoLostWakeup(n, length, steps, s);
      }
    }
  }

  // ----- reset

  /** In a run without a bad reset so far, a reset loses a wake-up if and only if it is a bad one. */
  lemma ResetLosesIff(n: nat, length: nat, steps: seq<Step>, s: S)
    requires n <= length && 0 < length && Run(Start(n, length), steps, s) && NumTasks(s) <= 127
    requires GoodResets(Start(n, length), steps) && Enabled(s, ResetQueue)
    ensures LostWakeup(Do(s, ResetQueue)) <==> !ResetSuffices(s.q)
  {
    CountGrowsInRun(Start(n, length), steps, s);
    RunInv(Start(n, length), steps, s);
    if s.q.tx != [] {
      assert s.q.tx[0] in s.q.tx;
    }
  }

  /** One step more of a run. */
  lemma Onward(a: S, steps: seq<Step>, s: S, step: Step, s': S) returns (steps': seq<Step>)
    requires Run(a, steps, s) && Enabled(s, step) && Do(s, step) == s'
    ensures Run(a, steps', s')
  {
    Extend(a, steps, s, step);
    steps' := steps + [step];
  }

  /** A full queue for two items, on which `waiting` wait to send. */
  function Full(waiting: seq<Task>, rxLock: int, txLock: int, pc: map<Task, Pc>, locker: set<Task>): S {
    S(Q(2, 2, rxLock, txLock, [], waiting, {}, {}), pc, locker)
  }

  /** Task t finds the queue full and waits. */
  lemma SenderWaits(a: S, before: seq<Step>, w: seq<Task>, pc: map<Task, Pc>, t: Task) returns (steps: seq<Step>)
    requires Run(a, before, Full(w, -1, -1, pc, {})) && t in pc && pc[t].Idle? && t !in w
    ensures Run(a, steps, Full(w + [t], -1, -1, pc[t := Waiting(Sending)], {}))
  {
    steps := Onward(a, before, Full(w, -1, -1, pc, {}), Call(t, Sending),
        Full(w, -1, -1, pc[t := Trying(Sending)], {}));
    steps := SenderLooks(a, steps, w, pc, t);
    steps := SenderParks(a, steps, w, pc, t);
  }

  lemma SenderLooks(a: S, before: seq<Step>, w: seq<Task>, pc: map<Task, Pc>, t: Task) returns (steps: seq<Step>)
    requires Run(a, before, Full(w, -1, -1, pc[t := Trying(Sending)], {}))
    ensures Run(a, steps, Full(w, 0, 0, pc[t := Placing(Sending)], {t}))
  {
    hide Run;
    var op := Sending;
    assert Retried(Full(w, -1, -1, pc, {}).q, t) == Full(w, -1, -1, pc, {}).q;
    steps := Onward(a, before, Full(w, -1, -1, pc[t := Trying(op)], {}), Attempt(t, true),
        Full(w, -1, -1, pc[t := Locking(op)], {}));
    steps := Onward(a, steps, Full(w, -1, -1, pc[t := Locking(op)], {}), SuspendAndLockRx(t),
        Full(w, 0, -1, pc[t := HalfLocked(op)], {t}));
    steps := Onward(a, steps, Full(w, 0, -1, pc[t := HalfLocked(op)], {t}), LockTx(t),
        Full(w, 0, 0, pc[t := Checking(op)], {t}));
    steps := Onward(a, steps, Full(w, 0, 0, pc[t := Checking(op)], {t}), CheckTime(t, false),
        Full(w, 0, 0, pc[t := Placing(op)], {t}));
  }

  lemma SenderParks(a: S, before: seq<Step>, w: seq<Task>, pc: map<Task, Pc>, t: Task) returns (steps: seq<Step>)
    requires Run(a, before, Full(w, 0, 0, pc[t := Placing(Sending)], {t}))
    ensures Run(a, steps, Full(w + [t], -1, -1, pc[t := Waiting(Sending)], {}))
  {
    hide Run;
    var op, w' := Sending, w + [t];
    assert Rings.InsertAt(w, |w|, t) == w';
    steps := Onward(a, before, Full(w, 0, 0, pc[t := Placing(op)], {t}), Place(t, |w|),
        Full(w', 0, 0, pc[t := Unlocking(op, Wait)], {t}));
    steps := SenderUnlocks(a, steps, w', pc, t);
  }

  lemma SenderUnlocks(a: S, before: seq<Step>, w': seq<Task>, pc: map<Task, Pc>, t: Task) returns (steps: seq<Step>)
    requires Run(a, before, Full(w', 0, 0, pc[t := Unlocking(Sending, Wait)], {t}))
    ensures Run(a, steps, Full(w', -1, -1, pc[t := Waiting(Sending)], {}))
  {
    hide Run;
    var op := Sending;
    steps := Onward(a, before, Full(w', 0, 0, pc[t := Unlocking(op, Wait)], {t}), UnlockFirst(t),
        Full(w', 0, -1, pc[t := HalfUnlocked(op, Wait)], {t}));
    steps := Onward(a, steps, Full(w', 0, -1, pc[t := HalfUnlocked(op, Wait)], {t}), UnlockSecond(t),
        Full(w', -1, -1, pc[t := Resuming(op, Wait)], {t}));
    steps := Onward(a, steps, Full(w', -1, -1, pc[t := Resuming(op, Wait)], {t}), Resume(t),
        Full(w', -1, -1, pc[t := Waiting(op)], {}));
  }

  /** Two senders wait on a full queue for two items, and a reset wakes one of them. */
  lemma ResetLoses() returns (steps: seq<Step>, s: S)
    ensures Run(Start(2, 2), steps, s) && NumTasks(s) == 2 && LostWakeup(s)
  {
    var a := Start(2, 2);
    assert Run(a, [], Full([], -1, -1, map[], {}));
    steps := Onward(a, [], Full([], -1, -1, map[], {}), Create(0), Full([], -1, -1, map[0 := Idle], {}));
    steps := Onward(a, steps, Full([], -1, -1, map[0 := Idle], {}), Create(1),
        Full([], -1, -1, map[0 := Idle][1 := Idle], {}));
    steps := SenderWaits(a, steps, [], map[0 := Idle][1 := Idle], 0);
    var pc := map[0 := Idle][1 := Idle][0 := Waiting(Sending)];
    steps := SenderWaits(a, steps, [] + [0], pc, 1);
    var full := Full([] + [0] + [1], -1, -1, pc[1 := Waiting(Sending)], {});
    s := Do(full, ResetQueue);
    steps := Onward(a, steps, full, ResetQueue, s);
    assert s.pc.Keys == {0, 1} && |s.pc| == |s.pc.Keys|;
    assert s.q.tx == [1] && s.q.wokenTx == {0};
  }
}

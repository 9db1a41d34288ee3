/** The part of a `Queue_t` that its blocking protocol is about: the item count, the two lock
    counters and the two lists of waiting tasks. */
module QueueModel {
  type Task = nat

  /** `rx` and `tx` are `PendingRX` and `PendingTX`, highest priority first. `wokenRx` and `wokenTx`
      belong to the specification: the tasks that an event took off these lists and that have not
      tried again since. */
  datatype Q = Q(
    n: nat, length: nat, rxLock: int, txLock: int,
    rx: seq<Task>, tx: seq<Task>, wokenRx: set<Task>, wokenTx: set<Task>)

  /** Conversion to `int8_t`. */
  function Int8(x: int): (y: int)
    ensures -128 <= y <= 127 && (-128 <= x <= 127 ==> y == x)
  {
    (x + 128) % 256 - 128
  }

  /** An `int8_t` in a comparison with an unsigned 64-bit number. */
  function Unsigned(x: int): int {
    if x < 0 then x + 0x1_0000_0000_0000_0000 else x
  }

  /** `incTXLock` and `incRXLock`: count up to the number of tasks. */
  function CountUp(lock: int, numTasks: nat): int {
    if Unsigned(lock) < numTasks then Int8(lock + 1) else lock
  }

  // ----- waking: `RemoveFromEventList` on a list that may be empty

  function WakeRx(q: Q): Q {
    if q.rx == [] then q else q.(rx := q.rx[1..], wokenRx := q.wokenRx + {q.rx[0]})
  }

  function WakeTx(q: Q): Q {
    if q.tx == [] then q else q.(tx := q.tx[1..], wokenTx := q.wokenTx + {q.tx[0]})
  }

  // ----- critical sections of tasks

  function Sent(q: Q, overwrite: bool): Q {
    q.(n := if overwrite && q.n > 0 then q.n else q.n + 1)
  }

  predicate MaySend(q: Q, overwrite: bool) {
    q.n < q.length || overwrite
  }

  function SendNow(q: Q, overwrite: bool): Q {
    WakeRx(Sent(q, overwrite))
  }

  function ReceiveNow(q: Q): Q
    requires q.n > 0
  {
    WakeTx(q.(n := q.n - 1))
  }

  function PeekNow(q: Q): Q {
    WakeRx(q)
  }

  // ----- interrupt handlers

  /** `SendFromISR` and, without `overwrite`, `GiveFromISR`. */
  function SendFromIsr(q: Q, overwrite: bool, numTasks: nat): Q {
    if !MaySend(q, overwrite) then q
    else
      var q1 := Sent(q, overwrite);
      if q.txLock != -1 then q1.(txLock := CountUp(q.txLock, numTasks)) else WakeRx(q1)
  }

  function ReceiveFromIsr(q: Q, numTasks: nat): Q {
    if q.n == 0 then q
    else
      var q1 := q.(n := q.n - 1);
      if q.rxLock != -1 then q1.(rxLock := CountUp(q.rxLock, numTasks)) else WakeTx(q1)
  }

  // ----- lock and unlock

  function Lock(lock: int): int {
    if lock == -1 then 0 else lock
  }

  /** The first loop of `Unlock`. */
  function UnlockTx(q: Q): Q
    decreases q.txLock
  {
    if q.txLock > 0 && q.rx != [] then UnlockTx(WakeRx(q).(txLock := q.txLock - 1)) else q.(txLock := -1)
  }

  /** The second one. */
  function UnlockRx(q: Q): Q
    decreases q.rxLock
  {
    if q.rxLock > 0 && q.tx != [] then UnlockRx(WakeTx(q).(rxLock := q.rxLock - 1)) else q.(rxLock := -1)
  }

  /** `Reset` of a queue in use: room for everything, but only one sender is told. */
  function Reset(q: Q): Q {
    WakeTx(q.(n := 0, rxLock := -1, txLock := -1))
  }

  // ----- what the unlock loops do

  function Prefix(credit: int, waiting: seq<Task>): (k: nat)
    ensures k <= |waiting|
  {
    if credit <= 0 then 0 else if credit < |waiting| then credit else |waiting|
  }

  function Members(s: seq<Task>): (m: set<Task>) {
    set t | t in s
  }

  lemma FirstOfPrefix(s: seq<Task>, k: nat)
    requires 0 < k <= |s|
    ensures s[1..][k - 1..] == s[k..]
    ensures Members(s[..k]) == {s[0]} + Members(s[1..][..k - 1])
  {
    assert s[..k] == [s[0]] + s[1..][..k - 1];
  }

  lemma Unions(woken: set<Task>, first: Task, rest: set<Task>)
    ensures woken + {first} + rest == woken + ({first} + rest)
  {
  }

  /** Unlocking wakes as many of the first waiting receivers as items were counted. */
  lemma {:induction false} UnlockTxWakes(q: Q)
    ensures var k := Prefix(q.txLock, q.rx);
            UnlockTx(q) == q.(txLock := -1, rx := q.rx[k..], wokenRx := q.wokenRx + Members(q.rx[..k]))
    decreases q.txLock
  {
    if q.txLock > 0 && q.rx != [] {
      var q1, k := WakeRx(q).(txLock := q.txLock - 1), Prefix(q.txLock, q.rx);
      UnlockTxWakes(q1);
      assert UnlockTx(q) == UnlockTx(q1) && Prefix(q1.txLock, q1.rx) == k - 1;
      FirstOfPrefix(q.rx, k);
      Unions(q.wokenRx, q.rx[0], Members(q.rx[1..][..k - 1]));
    } else {
      assert q.rx[..0] == [] && q.rx[0..] == q.rx;
      assert q.wokenRx + Members([]) == q.wokenRx;
    }
  }

  lemma {:induction false} UnlockRxWakes(q: Q)
    ensures var k := Prefix(q.rxLock, q.tx);
            UnlockRx(q) == q.(rxLock := -1, tx := q.tx[k..], wokenTx := q.wokenTx + Members(q.tx[..k]))
    decreases q.rxLock
  {
    if q.rxLock > 0 && q.tx != [] {
      var q1, k := WakeTx(q).(rxLock := q.rxLock - 1), Prefix(q.rxLock, q.tx);
      UnlockRxWakes(q1);
      assert UnlockRx(q) == UnlockRx(q1) && Prefix(q1.rxLock, q1.tx) == k - 1;
      FirstOfPrefix(q.tx, k);
      Unions(q.wokenTx, q.tx[0], Members(q.tx[1..][..k - 1]));
    } else {
      assert q.tx[..0] == [] && q.tx[0..] == q.tx;
      assert q.wokenTx + Members([]) == q.wokenTx;
    }
  }

  /** A lock counter after `sends` interrupts have counted up from a fresh lock. */
  function Counted(sends: nat, numTasks: nat): int {
    if sends == 0 then 0 else CountUp(Counted(sends - 1, numTasks), numTasks)
  }

  lemma {:induction false} CountedIsCapped(sends: nat, numTasks: nat)
    requires numTasks <= 127
    ensures Counted(sends, numTasks) == if sends < numTasks then sends else numTasks
  {
    if sends > 0 {
      CountedIsCapped(sends - 1, numTasks);
    }
  }

  /** Counting no further than the number of tasks makes no difference to who is woken, as long as
      that number fits the counter. */
  lemma CappedWakesTheSame(q: Q, sends: nat, numTasks: nat)
    requires |q.rx| <= numTasks <= 127
    ensures UnlockTx(q.(txLock := Counted(sends, numTasks))) == UnlockTx(q.(txLock := sends))
  {
    CountedIsCapped(sends, numTasks);
    UnlockTxWakes(q.(txLock := Counted(sends, numTasks)));
    UnlockTxWakes(q.(txLock := sends));
  }

  /** With more tasks the counter wraps, and an unlock then wakes nobody. */
  lemma {:induction false} CountedWraps(sends: nat, numTasks: nat)
    requires 128 <= numTasks < 0xffff_ffff_ffff_ff00
    ensures Counted(sends, numTasks) == if sends <= 127 then sends else -128
  {
    if sends > 0 {
      CountedWraps(sends - 1, numTasks);
    }
  }
}

/** `Queue_t`: a ring of fixed-size items in a byte array, with the counters and lists of its
    blocking protocol. */
module Queues {
  import opened QueueModel

  type Byte = b: nat | b < 256

  datatype Position = Back | Front | Overwrite

  // ----- positions in the ring

  /** The slot i places on from r, for r < length and i <= length. */
  function At(r: nat, i: nat, length: nat): (s: nat)
    requires r < length && i <= length
    ensures s < length
  {
    if r + i < length then r + i else r + i - length
  }

  function Before(r: nat, length: nat): (s: nat)
    requires r < length
    ensures s < length && At(s, 1, length) == r
  {
    if r == 0 then length - 1 else r - 1
  }

  /** The items between the read position and n places on. */
  function Window(slots: seq<seq<Byte>>, r: nat, n: nat): (c: seq<seq<Byte>>)
    requires r < |slots| && n <= |slots|
    ensures |c| == n
  {
    seq(n, i requires 0 <= i < n => slots[At(r, i + 1, |slots|)])
  }

  /** The write position is the first free slot. */
  predicate InStep(r: nat, w: nat, n: nat, length: nat)
    requires r < length && n <= length
  {
    w == At(At(r, n, length), 1, length)
  }

  /** A write at the back appends. */
  lemma BackAppends(slots: seq<seq<Byte>>, r: nat, w: nat, n: nat, item: seq<Byte>)
    requires r < |slots| && n < |slots| && w < |slots| && InStep(r, w, n, |slots|)
    ensures Window(slots[w := item], r, n + 1) == Window(slots, r, n) + [item]
    ensures InStep(r, At(w, 1, |slots|), n + 1, |slots|)
  {
  }

  /** And only then, unless the item is what the first free slot holds anyway. */
  lemma BackAppendsIff(slots: seq<seq<Byte>>, r: nat, w: nat, n: nat, item: seq<Byte>)
    requires r < |slots| && n < |slots| && w < |slots| && item != slots[At(r, n + 1, |slots|)]
    ensures Window(slots[w := item], r, n + 1) == Window(slots, r, n) + [item] <==> InStep(r, w, n, |slots|)
  {
    if InStep(r, w, n, |slots|) {
      BackAppends(slots, r, w, n, item);
    } else {
      assert Window(slots[w := item], r, n + 1)[n] == slots[At(r, n + 1, |slots|)];
    }
  }

  /** A write at the front prepends; when the queue is full it drops the newest item. */
  lemma FrontPrepends(slots: seq<seq<Byte>>, r: nat, n: nat, item: seq<Byte>)
    requires r < |slots| && n < |slots|
    ensures Window(slots[r := item], Before(r, |slots|), n + 1) == [item] + Window(slots, r, n)
  {
  }

  lemma ReadPopsFront(slots: seq<seq<Byte>>, r: nat, w: nat, n: nat)
    requires r < |slots| && w < |slots| && 0 < n <= |slots|
    ensures Window(slots, r, n)[0] == slots[At(r, 1, |slots|)]
    ensures Window(slots, At(r, 1, |slots|), n - 1) == Window(slots, r, n)[1..]
    ensures InStep(r, w, n, |slots|) <==> InStep(At(r, 1, |slots|), w, n - 1, |slots|)
  {
  }

  lemma FrontKeepsStep(r: nat, w: nat, n: nat, length: nat)
    requires r < length && w < length && n < length
    ensures InStep(r, w, n, length) <==> InStep(Before(r, length), w, n + 1, length)
  {
  }

  /** Overwriting is meant for queues of length one. Elsewhere, unless the queue is empty, it leaves
      the write position one slot off, and the next item sent to the back is not the last in line. */
  lemma OverwriteKeepsStep(r: nat, w: nat, n: nat, length: nat)
    requires r < length && w < length && n <= length && InStep(r, w, n, length)
    ensures InStep(Before(r, length), w, if n > 0 then n else 1, length) <==> length == 1 || n == 0
  {
  }

  /** A queue for two items holds one; it is overwritten by a second one, and then a third one is sent to the
      back: that one comes first, and the second is lost. */
  lemma SentAfterOverwrite() returns (slots: seq<seq<Byte>>, written: seq<seq<Byte>>, sent: seq<seq<Byte>>)
    ensures |slots| == 2 && InStep(0, 0, 1, 2) && Window(slots, 0, 1) == [[1]]
    ensures written == slots[0 := [2]] && Window(written, Before(0, 2), 1) == [[2]] && !InStep(Before(0, 2), 0, 1, 2)
    ensures sent == written[0 := [3]] && Window(sent, Before(0, 2), 2) == [[3], [1]]
  {
    slots, written, sent := [[0], [1]], [[2], [1]], [[3], [1]];
  }

  // ----- bytes

  lemma Apart(s: nat, t: nat, size: nat)
    requires s < t
    ensures s * size + size <= t * size
  {
    var d := t - s - 1;
    assert t * size == s * size + size + d * size;
  }

  lemma InBounds(s: nat, length: nat, size: nat)
    requires s < length
    ensures s * size + size <= length * size
    ensures size > 0 ==> (s * size + size >= length * size <==> s + 1 == length)
  {
    Apart(s, length, size);
    if s + 1 < length {
      Apart(s, length - 1, size);
      Apart(length - 1, length, size);
    }
  }

  /** The byte positions of the slots before and after one, as the source computes them. */
  lemma StepBack(s: nat, length: nat, size: nat)
    requires s < length && size > 0
    ensures Before(s, length) * size == if s * size - size < 0 then length * size - size else s * size - size
  {
    assert (length - 1) * size == length * size - size;
    assert (s - 1) * size == s * size - size;
    if s > 0 {
      Apart(0, s, size);
    }
  }

  lemma StepOn(s: nat, length: nat, size: nat)
    requires s < length && size > 0
    ensures At(s, 1, length) * size == if s * size + size >= length * size then 0 else s * size + size
  {
    InBounds(s, length, size);
    assert (s + 1) * size == s * size + size;
  }

  class Queue {
    /** The bytes from `Head` up to `pcTail`; positions are offsets from `Head`. */
    const storage: array<Byte>
    const length: nat
    const itemSize: nat
    var read: int
    var write: int
    var nWaiting: nat
    var rxLock: int
    var txLock: int
    var PendingRX: seq<Task>
    var PendingTX: seq<Task>
    ghost var wokenRx: set<Task>
    ghost var wokenTx: set<Task>
    /** The slots the two positions point at, and what the slots hold. */
    ghost var r: nat
    ghost var w: nat
    ghost var slots: seq<seq<Byte>>

    ghost predicate Valid()
      reads this, storage
    {
      && r < length && w < length && nWaiting <= length && |slots| == length
      && Holds(slots)
      && (itemSize > 0 ==> read == r * itemSize && write == w * itemSize)
    }

    ghost predicate Holds(slots: seq<seq<Byte>>)
      reads storage
    {
      && storage.Length == length * itemSize && |slots| == length
      && forall s :: 0 <= s < length ==> HoldsSlot(s, slots[s])
    }

    ghost predicate HoldsSlot(s: nat, item: seq<Byte>)
      reads storage
    {
      && s * itemSize + itemSize <= storage.Length
      && storage[s * itemSize..s * itemSize + itemSize] == item
    }

    /** The queue as a sequence of items, next item to be received first. */
    ghost function Contents(): (c: seq<seq<Byte>>)
      requires Valid()
      reads this, storage
      ensures |c| == nWaiting
    {
      Window(slots, r, nWaiting)
    }

    ghost predicate WriteInStep()
      requires Valid()
      reads this, storage
    {
      itemSize == 0 || InStep(r, w, nWaiting, length)
    }

    ghost function Abs(): Q
      reads this
    {
      Q(nWaiting, length, rxLock, txLock, PendingRX, PendingTX, wokenRx, wokenTx)
    }

    // ----- memcpy

    method Store(at: nat, item: seq<Byte>, ghost s: nat)
      requires Holds(slots) && s < length && at == s * itemSize && |item| == itemSize
      modifies storage
      ensures Holds(slots[s := item])
    {
      InBounds(s, length, itemSize);
      ghost var was := storage[..];
      forall i | 0 <= i < |item| {
        storage[at + i] := item[i];
      }
      ghost var now := slots[s := item];
      forall t | 0 <= t < length ensures HoldsSlot(t, now[t]) {
        InBounds(t, length, itemSize);
        if t != s {
          Apart(if t < s then t else s, if t < s then s else t, itemSize);
          assert old(HoldsSlot(t, slots[t]));
          assert storage[t * itemSize..t * itemSize + itemSize] == was[t * itemSize..t * itemSize + itemSize];
        }
      }
    }

    /** `copyInto`: step the read position and copy the item there out. */
    method CopyInto() returns (item: seq<Byte>)
      requires Valid()
      modifies this`read, this`r
      ensures Valid()
      ensures item == slots[At(old(r), 1, length)]
      ensures r == if itemSize == 0 then old(r) else At(old(r), 1, length)
    {
      item := [];
      ghost var next := At(r, 1, length);
      assert HoldsSlot(next, slots[next]);
      if itemSize != 0 {
        InBounds(r, length, itemSize);
        assert (r + 1) * itemSize == r * itemSize + itemSize;
        read := read + itemSize;
        if read >= storage.Length {
          read := 0;
        }
        r := next;
        item := storage[read..read + itemSize];
      }
    }

    static function Oldest(c: seq<seq<Byte>>, n: nat): seq<seq<Byte>>
      requires n <= |c|
    {
      if n == 0 then [] else c[..n - 1]
    }

    /** `copyFrom`, but for giving a mutex back. A send to the back appends, one to the front prepends;
        overwriting puts the item first and, if there were items, drops the newest. */
    method CopyFrom(item: seq<Byte>, pos: Position)
      requires Valid() && |item| == itemSize && (nWaiting < length || (pos.Overwrite? && itemSize > 0))
      modifies this`read, this`r, this`write, this`w, this`slots, this`nWaiting, storage
      ensures Valid()
      ensures pos.Back? && old(WriteInStep()) ==> Contents() == old(Contents()) + [item]
      ensures pos.Front? ==> Contents() == [item] + old(Contents())
      ensures pos.Overwrite? && itemSize > 0 ==> Contents() == [item] + Oldest(old(Contents()), old(nWaiting))
      ensures !pos.Overwrite? && old(WriteInStep()) ==> WriteInStep()
      ensures pos.Overwrite? && itemSize > 0 && old(WriteInStep()) ==>
              (WriteInStep() <==> length == 1 || old(nWaiting) == 0)
      ensures Abs() == Sent(old(Abs()), pos.Overwrite? && itemSize > 0)
    {
      if itemSize == 0 {
        assert forall s :: 0 <= s < length ==> HoldsSlot(s, slots[s]);
        assert forall s :: 0 <= s < length ==> slots[s] == [];
        nWaiting := nWaiting + 1;
      } else if pos.Back? {
        WriteBack(item);
      } else {
        WriteFront(item);
        if pos.Overwrite? && nWaiting > 0 {
          nWaiting := nWaiting - 1;
        }
        nWaiting := nWaiting + 1;
        FrontDone(old(slots), old(r), w, old(nWaiting), item, pos);
      }
    }

    static lemma FrontDone(was: seq<seq<Byte>>, r: nat, w: nat, n: nat, item: seq<Byte>, pos: Position)
      requires r < |was| && w < |was| && n <= |was| && !pos.Back? && (pos.Overwrite? || n < |was|)
      ensures var n' := if pos.Overwrite? && n > 0 then n else n + 1;
              && Window(was[r := item], Before(r, |was|), n')
                 == [item] + (if pos.Overwrite? then Oldest(Window(was, r, n), n) else Window(was, r, n))
              && (InStep(r, w, n, |was|) ==>
                    (InStep(Before(r, |was|), w, n', |was|) <==> !pos.Overwrite? || |was| == 1 || n == 0))
    {
      if pos.Overwrite? && n > 0 {
        FrontPrepends(was, r, n - 1, item);
        assert Window(was, r, n)[..n - 1] == Window(was, r, n - 1);
      } else {
        FrontPrepends(was, r, n, item);
        FrontKeepsStep(r, w, n, |was|);
      }
      if pos.Overwrite? && InStep(r, w, n, |was|) {
        OverwriteKeepsStep(r, w, n, |was|);
      }
    }

    method WriteBack(item: seq<Byte>)
      requires Valid() && |item| == itemSize > 0 && nWaiting < length
      modifies this`write, this`w, this`slots, this`nWaiting, storage
      ensures Valid() && Abs() == Sent(old(Abs()), false)
      ensures old(WriteInStep()) ==> Contents() == old(Contents()) + [item] && WriteInStep()
    {
      Store(write, item, w);
      slots := slots[w := item];
      StepOn(w, length, itemSize);
      write := write + itemSize;
      if write >= storage.Length {
        write := 0;
      }
      w := At(w, 1, length);
      nWaiting := nWaiting + 1;
      if old(WriteInStep()) {
        BackAppends(old(slots), r, old(w), old(nWaiting), item);
      }
    }

    /** Write at the read position and step back. */
    method WriteFront(item: seq<Byte>)
      requires Valid() && |item| == itemSize > 0
      modifies this`read, this`r, this`slots, storage
      ensures Valid() && r == Before(old(r), length) && slots == old(slots)[old(r) := item]
    {
      Store(read, item, r);
      slots := slots[r := item];
      StepBack(r, length, itemSize);
      read := read - itemSize;
      if read < 0 {
        read := storage.Length - itemSize;
      }
      r := Before(r, length);
    }

    // ----- reset

    /** `InitAsQueue`. */
    constructor (len: nat, size: nat)
      requires len > 0
      ensures Valid() && length == len && itemSize == size && fresh(storage)
      ensures Contents() == [] && WriteInStep()
      ensures Abs() == Q(0, len, -1, -1, [], [], {}, {})
    {
      length, itemSize := len, size;
      storage := new Byte[len * size];
      PendingRX, PendingTX, wokenRx, wokenTx := [], [], {}, {};
      new;
      forall s | 0 <= s < len ensures s * size + size <= len * size {
        InBounds(s, len, size);
      }
      slots := seq(len, s requires 0 <= s < len &&
          s * size + size <= storage.Length reads storage => storage[s * size..s * size + size]);
      ResetPositions();
    }

    method ResetPositions()
      requires length > 0 && Holds(slots)
      modifies this`nWaiting, this`write, this`read, this`rxLock, this`txLock, this`r, this`w
      ensures Valid() && Contents() == [] && WriteInStep()
      ensures nWaiting == 0 && rxLock == -1 && txLock == -1
    {
      nWaiting := 0;
      write := 0;
      read := (length - 1) * itemSize;
      rxLock, txLock := -1, -1;
      r, w := length - 1, 0;
    }

    /** `Reset` of a queue in use. */
    method ResetInUse()
      requires Valid()
      modifies this
      ensures Valid() && Contents() == [] && WriteInStep()
      ensures Abs() == QueueModel.Reset(old(Abs()))
    {
      ResetPositions();
      if |PendingTX| > 0 {
        WakeSender();
      }
    }

    // ----- waking

    method WakeReceiver()
      requires PendingRX != []
      modifies this`PendingRX, this`wokenRx
      ensures Abs() == WakeRx(old(Abs()))
    {
      wokenRx := wokenRx + {PendingRX[0]};
      PendingRX := PendingRX[1..];
    }

    method WakeSender()
      requires PendingTX != []
      modifies this`PendingTX, this`wokenTx
      ensures Abs() == WakeTx(old(Abs()))
    {
      wokenTx := wokenTx + {PendingTX[0]};
      PendingTX := PendingTX[1..];
    }

    // ----- lock and unlock

    method Lock()
      modifies this`rxLock, this`txLock
      ensures Abs() == old(Abs()).(rxLock := QueueModel.Lock(old(rxLock)), txLock := QueueModel.Lock(old(txLock)))
    {
      if rxLock == -1 {
        rxLock := 0;
      }
      if txLock == -1 {
        txLock := 0;
      }
    }

    method Unlock()
      modifies this`rxLock, this`txLock, this`PendingRX, this`PendingTX, this`wokenRx, this`wokenTx
      ensures Abs() == UnlockRx(UnlockTx(old(Abs())))
    {
      UnlockSends();
      UnlockReceives();
    }

    /** The first critical section of `Unlock`. */
    method UnlockSends()
      modifies this`txLock, this`PendingRX, this`wokenRx
      ensures Abs() == UnlockTx(old(Abs()))
    {
      ghost var goal := UnlockTx(Abs());
      while txLock > 0
        invariant UnlockTx(Abs()) == goal
        invariant Abs() == old(Abs()).(txLock := txLock, rx := PendingRX, wokenRx := wokenRx)
      {
        if |PendingRX| == 0 {
          break;
        }
        WakeReceiver();
        txLock := txLock - 1;
      }
      txLock := -1;
    }

    /** The second one. */
    method UnlockReceives()
      modifies this`rxLock, this`PendingTX, this`wokenTx
      ensures Abs() == UnlockRx(old(Abs()))
    {
      ghost var goal := UnlockRx(Abs());
      while rxLock > 0
        invariant UnlockRx(Abs()) == goal
        invariant Abs() == old(Abs()).(rxLock := rxLock, tx := PendingTX, wokenTx := wokenTx)
      {
        if |PendingTX| == 0 {
          break;
        }
        WakeSender();
        rxLock := rxLock - 1;
      }
      rxLock := -1;
    }

    // ----- sending

    /** The critical section of `Send`. */
    method TrySend(item: seq<Byte>, pos: Position) returns (sent: bool)
      requires Valid() && |item| == itemSize && (pos.Overwrite? ==> itemSize > 0)
      modifies this, storage
      ensures Valid() && (sent <==> pos.Overwrite? || old(nWaiting) < length)
      ensures Abs() == if sent then SendNow(old(Abs()), pos.Overwrite?) else old(Abs())
      ensures !sent ==> Contents() == old(Contents()) && WriteInStep() == old(WriteInStep())
      ensures sent && old(WriteInStep()) && (pos.Overwrite? ==> length == 1) ==>
                WriteInStep() && Contents() == Put(old(Contents()), item, pos)
    {
      sent := nWaiting < length || pos.Overwrite?;
      if sent {
        CopyFrom(item, pos);
        if |PendingRX| > 0 {
          WakeReceiver();
        }
      }
    }

    /** What a send means for the contents; a queue that is overwritten has room for one item. */
    static function Put(c: seq<seq<Byte>>, item: seq<Byte>, pos: Position): seq<seq<Byte>> {
      match pos
      case Back => c + [item]
      case Front => [item] + c
      case Overwrite => [item]
    }

    /** `SendFromISR`. */
    method SendFromISR(item: seq<Byte>, pos: Position, numTasks: nat) returns (sent: bool)
      requires Valid() && |item| == itemSize && (pos.Overwrite? ==> itemSize > 0)
      modifies this, storage
      ensures Valid() && (sent <==> pos.Overwrite? || old(nWaiting) < length)
      ensures Abs() == SendFromIsr(old(Abs()), pos.Overwrite?, numTasks)
      ensures !sent ==> Contents() == old(Contents()) && WriteInStep() == old(WriteInStep())
      ensures sent && old(WriteInStep()) && (pos.Overwrite? ==> length == 1) ==>
                WriteInStep() && Contents() == Put(old(Contents()), item, pos)
    {
      if nWaiting >= length && !pos.Overwrite? {
        return false;
      }
      CopyFrom(item, pos);
      sent := true;
      if txLock != -1 {
        if Unsigned(txLock) < numTasks {
          txLock := Int8(txLock + 1);
        }
      } else if |PendingRX| > 0 {
        WakeReceiver();
      }
    }

    /** `GiveFromISR`, for a semaphore. */
    method GiveFromISR(numTasks: nat) returns (given: bool)
      requires Valid() && itemSize == 0
      modifies this, storage
      ensures Valid() && WriteInStep() && given == (old(nWaiting) < length)
      ensures Abs() == SendFromIsr(old(Abs()), false, numTasks)
    {
      given := nWaiting < length;
      if given {
        var lock := txLock;
        nWaiting := nWaiting + 1;
        if lock == -1 {
          if |PendingRX| > 0 {
            WakeReceiver();
          }
        } else if Unsigned(txLock) < numTasks {
          txLock := Int8(txLock + 1);
        }
      }
    }

    // ----- receiving

    /** Copy the first item out and count it off. */
    method Pop() returns (item: seq<Byte>)
      requires Valid() && nWaiting > 0
      modifies this`read, this`r, this`nWaiting
      ensures Valid() && Abs() == old(Abs()).(n := old(nWaiting) - 1)
      ensures item == old(Contents())[0] && Contents() == old(Contents())[1..]
      ensures WriteInStep() == old(WriteInStep())
    {
      ReadPopsFront(slots, r, w, nWaiting);
      if itemSize == 0 {
        NoBytes();
      }
      hide HoldsSlot;
      item := CopyInto();
      nWaiting := nWaiting - 1;
    }

    /** The items of a semaphore are empty. */
    lemma NoBytes()
      requires Valid() && itemSize == 0
      ensures forall s :: 0 <= s < length ==> slots[s] == []
    {
      assert forall s :: 0 <= s < length ==> HoldsSlot(s, slots[s]);
    }

    /** The critical section of `Recv`. */
    method TryReceive() returns (got: bool, item: seq<Byte>)
      requires Valid()
      modifies this
      ensures Valid() && got == (old(nWaiting) > 0) && WriteInStep() == old(WriteInStep())
      ensures got ==> Abs() == ReceiveNow(old(Abs())) && item == old(Contents())[0] &&
                      Contents() == old(Contents())[1..]
      ensures !got ==> Abs() == old(Abs()) && Contents() == old(Contents())
    {
      got, item := nWaiting > 0, [];
      if got {
        item := Pop();
        if |PendingTX| > 0 {
          WakeSender();
        }
      }
    }

    /** `RecvFromISR`. */
    method ReceiveFromISR(numTasks: nat) returns (got: bool, item: seq<Byte>)
      requires Valid()
      modifies this
      ensures Valid() && got == (old(nWaiting) > 0) && WriteInStep() == old(WriteInStep())
      ensures Abs() == ReceiveFromIsr(old(Abs()), numTasks)
      ensures got ==> item == old(Contents())[0] && Contents() == old(Contents())[1..]
      ensures !got ==> Contents() == old(Contents())
    {
      got, item := nWaiting > 0, [];
      if got {
        var lock := rxLock;
        item := Pop();
        if lock == -1 {
          if |PendingTX| > 0 {
            WakeSender();
          }
        } else if Unsigned(rxLock) < numTasks {
          rxLock := Int8(rxLock + 1);
        }
      }
    }

    /** The critical section of `QueuePeek`: the read position is put back. */
    method TryPeek() returns (got: bool, item: seq<Byte>)
      requires Valid()
      modifies this
      ensures Valid() && got == (nWaiting > 0) && Contents() == old(Contents()) && WriteInStep() == old(WriteInStep())
      ensures got ==> Abs() == PeekNow(old(Abs())) && item == Contents()[0]
      ensures !got ==> Abs() == old(Abs())
    {
      got, item := nWaiting > 0, [];
      if got {
        var orig := read;
        ghost var origSlot := r;
        assert forall s :: 0 <= s < length ==> HoldsSlot(s, slots[s]);
        item := CopyInto();
        read, r := orig, origSlot;
        if |PendingRX| > 0 {
          WakeReceiver();
        }
      }
    }
  }
}

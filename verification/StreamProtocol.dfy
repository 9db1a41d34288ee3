/** One writer and one reader on a stream buffer at the same time, down to the single reads of an index,
    copies of a byte and stores of an index; the `volatile` indices are sequentially consistent. */
module StreamProtocol {
  import opened Basics
  import opened StreamFrames
  import opened StreamBuffers
  import opened Arithmetic

  /** Where the writer is: in the loop of `xStreamBufferSpacesAvailable`, or copying with the bytes in
      `done` copied so far, in whatever order `memcpy` takes them. */
  datatype Writer =
    | NotWriting
    | Sizing(orig: nat)
    | Confirming(orig: nat, space: nat)
    | Sized(space: nat)
    | Writing(data: seq<Byte>, done: set<nat>)

  /** The reader has counted `count` bytes and copies the first n, of which it has those in `got`. */
  datatype Reader =
    | NotReading
    | Counted(count: nat)
    | Reading(count: nat, n: nat, got: map<nat, Byte>)

  /** `sent` and `received` belong to the specification: every byte ever published, and consumed. */
  datatype S = S(bytes: seq<Byte>, xHead: nat, xTail: nat, writer: Writer, reader: Reader,
                 sent: seq<Byte>, received: seq<Byte>)

  function Length(s: S): nat {
    |s.bytes|
  }

  datatype Step =
    | ReadTail
    | ComputeSpace
    | ConfirmTail
    | StartWriting(data: seq<Byte>)
    | CopyIn(i: nat)
    | PublishHead
    | Abandon
    | ReadHead
    | StartReading(n: nat)
    | CopyOut(i: nat)
    | ReadOn(n: nat)
    | PublishTail
    | PutBack

  predicate Shape(s: S) {
    s.xHead < Length(s) && s.xTail < Length(s)
  }

  predicate Enabled(s: S, step: Step) {
    && Shape(s)
    && match step
       case ReadTail => s.writer.NotWriting?
       case ComputeSpace => s.writer.Sizing?
       case ConfirmTail => s.writer.Confirming?
       case StartWriting(data) => s.writer.Sized? && |data| <= s.writer.space
       case CopyIn(i) => s.writer.Writing? && |s.writer.data| <= Length(s) && i < |s.writer.data| && i !in s.writer.done
       case PublishHead => s.writer.Writing? && |s.writer.data| <= Length(s) &&
           (forall i: nat :: i < |s.writer.data| ==> i in s.writer.done)
       case Abandon => s.writer.Sized? || s.writer.Writing?
       case ReadHead => s.reader.NotReading?
       case StartReading(n) => s.reader.Counted? && n <= s.reader.count
       case CopyOut(i) => s.reader.Reading? && s.reader.n <= Length(s) && i < s.reader.n && i !in s.reader.got
       case ReadOn(n) => s.reader.Reading? && s.reader.n <= n <= s.reader.count
       case PublishTail => s.reader.Reading? && s.reader.n <= Length(s) &&
           (forall i: nat :: i < s.reader.n ==> i in s.reader.got)
       case PutBack => s.reader.Counted? || s.reader.Reading?
  }

  /** What `xStreamBufferSpacesAvailable` computes from one reading of each index. */
  function SpaceOf(xHead: nat, xTail: nat, length: nat): (space: nat)
    requires xHead < length && xTail < length
    ensures space == length - 1 - Distance(xTail, xHead, length)
  {
    var space := length + xTail - xHead - 1;
    if space >= length then space - length else space
  }

  function Copied(got: map<nat, Byte>, n: nat): (data: seq<Byte>)
    requires forall i: nat :: i < n ==> i in got
    ensures |data| == n
  {
    seq(n, i requires 0 <= i < n => got[i])
  }

  function Do(s: S, step: Step): S
    requires Enabled(s, step)
  {
    match step
    case ReadTail => s.(writer := Sizing(s.xTail))
    case ComputeSpace => s.(writer := Confirming(s.writer.orig, SpaceOf(s.xHead, s.xTail, Length(s))))
    case ConfirmTail => s.(writer := if s.writer.orig == s.xTail then Sized(s.writer.space) else NotWriting)
    case StartWriting(data) => s.(writer := Writing(data, {}))
    case CopyIn(i) =>
      s.(bytes := s.bytes[At(s.xHead, i, Length(s)) := s.writer.data[i]],
          writer := s.writer.(done := s.writer.done + {i}))
    case PublishHead =>
      s.(xHead := At(s.xHead, |s.writer.data|, Length(s)), writer := NotWriting, sent := s.sent + s.writer.data)
    case Abandon => s.(writer := NotWriting)
    case ReadHead => s.(reader := Counted(Distance(s.xTail, s.xHead, Length(s))))
    case StartReading(n) => s.(reader := Reading(s.reader.count, n, map[]))
    case CopyOut(i) => s.(reader := s.reader.(got := s.reader.got[i := s.bytes[At(s.xTail, i, Length(s))]]))
    case ReadOn(n) => s.(reader := s.reader.(n := n))
    case PublishTail =>
      s.(xTail := At(s.xTail, s.reader.n, Length(s)), reader := NotReading, received := s.received +
          Copied(s.reader.got, s.reader.n))
    case PutBack => s.(reader := NotReading)
  }

  // ----- positions of the bytes of an endless stream

  lemma Moved(k: nat, i: nat, length: nat)
    requires length > 0 && i <= length
    ensures (k + i) % length == At(k % length, i, length)
  {
    var q, r := k / length, k % length;
    if r + i < length {
      DivModUnique(k + i, q, r + i, length);
    } else {
      assert (q + 1) * length == q * length + length;
      DivModUnique(k + i, q + 1, r + i - length, length);
    }
  }

  lemma Distinct(a: nat, b: nat, length: nat)
    requires length > 0 && a < b < a + length
    ensures a % length != b % length
  {
    Moved(a, b - a, length);
  }

  // ----- the invariant

  ghost predicate Stored(s: S)
    requires Length(s) > 0
  {
    forall k: nat {:trigger s.sent[k]} :: |s.received| <= k < |s.sent| ==> s.bytes[k % Length(s)] == s.sent[k]
  }

  ghost predicate WriterOk(s: S)
    requires Length(s) > 0
  {
    match s.writer
    case NotWriting => true
    case Sizing(_) => true
    case Confirming(_, space) => |s.sent| + space < |s.received| + Length(s)
    case Sized(space) => |s.sent| + space < |s.received| + Length(s)
    case Writing(data, done) =>
      && |s.sent| + |data| < |s.received| + Length(s)
      && (forall i :: i in done ==> i < |data| && s.bytes[(|s.sent| + i) % Length(s)] == data[i])
  }

  ghost predicate ReaderOk(s: S) {
    match s.reader
    case NotReading => true
    case Counted(count) => |s.received| + count <= |s.sent|
    case Reading(count, n, got) =>
      && n <= count && |s.received| + count <= |s.sent|
      && (forall i :: i in got ==> i < n && got[i] == s.sent[|s.received| + i])
  }

  ghost predicate Inv(s: S) {
    && Shape(s)
    && |s.received| <= |s.sent| < |s.received| + Length(s) && s.received == s.sent[..|s.received|]
    && s.xHead == |s.sent| % Length(s) && s.xTail == |s.received| % Length(s)
    && Stored(s) && WriterOk(s) && ReaderOk(s)
  }

  /** The bytes in the ring, as the indices and the array say. */
  function Buffered(s: S): seq<Byte>
    requires Shape(s)
  {
    Window(s.bytes, s.xTail, Distance(s.xTail, s.xHead, Length(s)))
  }

  lemma Counts(s: S)
    requires Shape(s) && |s.received| <= |s.sent| < |s.received| + Length(s)
    requires s.xHead == |s.sent| % Length(s) && s.xTail == |s.received| % Length(s)
    ensures Distance(s.xTail, s.xHead, Length(s)) == |s.sent| - |s.received|
  {
    Moved(|s.received|, |s.sent| - |s.received|, Length(s));
  }

  /** Nothing is lost, repeated, reordered or overwritten. */
  lemma ReceivedThenBuffered(s: S)
    requires Inv(s)
    ensures s.received + Buffered(s) == s.sent
  {
    Counts(s);
    forall k | |s.received| <= k < |s.sent| ensures (s.received + Buffered(s))[k] == s.sent[k] {
      Moved(|s.received|, k - |s.received|, Length(s));
    }
  }

  // ----- every step keeps it

  lemma ComputeInv(s: S)
    requires Inv(s) && Enabled(s, ComputeSpace)
    ensures Inv(Do(s, ComputeSpace))
  {
    Counts(s);
  }

  lemma CopyInInv(s: S, i: nat)
    requires Inv(s) && Enabled(s, CopyIn(i))
    ensures Inv(Do(s, CopyIn(i)))
  {
    var s', p := Do(s, CopyIn(i)), At(s.xHead, i, Length(s));
    Moved(|s.sent|, i, Length(s));
    forall k: nat | |s.received| <= k < |s.sent| ensures s'.bytes[k % Length(s)] == s.sent[k] {
      Distinct(k, |s.sent| + i, Length(s));
    }
    forall j | j in s'.writer.done ensures j < |s.writer.data| &&
        s'.bytes[(|s.sent| + j) % Length(s)] == s.writer.data[j] {
      if j < i {
        Distinct(|s.sent| + j, |s.sent| + i, Length(s));
      } else if i < j {
        Distinct(|s.sent| + i, |s.sent| + j, Length(s));
      }
    }
  }

  lemma PublishHeadInv(s: S)
    requires Inv(s) && Enabled(s, PublishHead)
    ensures Inv(Do(s, PublishHead))
  {
    Moved(|s.sent|, |s.writer.data|, Length(s));
    var s' := Do(s, PublishHead);
    forall k: nat | |s'.received| <= k < |s'.sent| ensures s'.bytes[k % Length(s)] == s'.sent[k] {
      if k >= |s.sent| {
        assert k - |s.sent| in s.writer.done;
      } else {
        assert s.sent[k] == s'.sent[k];
      }
    }
  }

  lemma CopyOutInv(s: S, i: nat)
    requires Inv(s) && Enabled(s, CopyOut(i))
    ensures Inv(Do(s, CopyOut(i)))
  {
    Moved(|s.received|, i, Length(s));
    assert s.sent[|s.received| + i] == s.bytes[(|s.received| + i) % Length(s)];
  }

  lemma PublishTailInv(s: S)
    requires Inv(s) && Enabled(s, PublishTail)
    ensures Inv(Do(s, PublishTail))
  {
    Moved(|s.received|, s.reader.n, Length(s));
    var s' := Do(s, PublishTail);
    assert Copied(s.reader.got, s.reader.n) == s.sent[|s.received|..|s'.received|];
  }

  lemma StepInv(s: S, step: Step)
    requires Inv(s) && Enabled(s, step)
    ensures Inv(Do(s, step))
  {
    match step
    case ComputeSpace => ComputeInv(s);
    case CopyIn(i) => CopyInInv(s, i);
    case PublishHead => PublishHeadInv(s);
    case CopyOut(i) => CopyOutInv(s, i);
    case PublishTail => PublishTailInv(s);
    case ReadHead => Counts(s);
    case _ =>
  }

  // ----- runs

  ghost predicate Run(s: S, steps: seq<Step>, s': S)
    decreases |steps|
  {
    if steps == [] then s' == s else Enabled(s, steps[0]) && Run(Do(s, steps[0]), steps[1..], s')
  }

  lemma {:induction false} RunInv(s: S, steps: seq<Step>, s': S)
    requires Inv(s) && Run(s, steps, s')
    ensures Inv(s')
    decreases |steps|
  {
    if steps != [] {
      StepInv(s, steps[0]);
      RunInv(Do(s, steps[0]), steps[1..], s');
    }
  }

  /** A new buffer, with whatever bytes in it. */
  predicate Start(s: S) {
    Length(s) > 0 && s == S(s.bytes, 0, 0, NotWriting, NotReading, [], [])
  }

  /** In every interleaving the bytes received, followed by the bytes in the ring, are the bytes sent. */
  lemma NothingLost(s: S, steps: seq<Step>, s': S)
    requires Start(s) && Run(s, steps, s')
    ensures Shape(s') && s'.received + Buffered(s') == s'.sent
  {
    RunInv(s, steps, s');
    ReceivedThenBuffered(s');
  }

  /** In particular copying a byte in leaves the bytes still to be read alone, even though the writer
      saw the tail as it was a while ago. */
  lemma UnreadIsSpared(s: S, steps: seq<Step>, s': S, i: nat)
    requires Start(s) && Run(s, steps, s') && Enabled(s', CopyIn(i))
    ensures Buffered(Do(s', CopyIn(i))) == Buffered(s')
  {
    RunInv(s, steps, s');
    CopyInInv(s', i);
    ReceivedThenBuffered(s');
    ReceivedThenBuffered(Do(s', CopyIn(i)));
    assert Buffered(s') == s'.sent[|s'.received|..] == Buffered(Do(s', CopyIn(i)));
  }
}

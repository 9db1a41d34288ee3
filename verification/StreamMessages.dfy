/** Whole messages over the concurrent ring: what `StreamProtocol` says of bytes, for a message buffer. */
module StreamMessages {
  import opened Basics
  import opened StreamFrames
  import opened StreamBuffers
  import opened StreamProtocol

  predicate IsFrame(data: seq<Byte>) {
    |data| >= HEADER && IsMessage(data[HEADER..]) && data == Frame(data[HEADER..])
  }

  /** What the code does with a message buffer: only whole frames are published, and the reader takes the
      header and then as many bytes as it says, unless fewer have been counted. */
  predicate MessageStep(s: S, step: Step) {
    match step
    case PublishHead => s.writer.Writing? && IsFrame(s.writer.data)
    case PublishTail =>
      && s.reader.Reading? && HEADER < s.reader.n && HEADER < s.reader.count &&
         (forall i: nat :: i < s.reader.n ==> i in s.reader.got)
      && s.reader.n == HEADER + Min(Decode(Copied(s.reader.got, HEADER)), s.reader.count - HEADER)
    case _ => true
  }

  ghost predicate MessageRun(s: S, steps: seq<Step>, s': S)
    decreases |steps|
  {
    if steps == [] then s' == s
    else Enabled(s, steps[0]) && MessageStep(s, steps[0]) && MessageRun(Do(s, steps[0]), steps[1..], s')
  }

  /** `ms` are the messages sent, of which k have been received; the reader has seen the first j. */
  ghost predicate Told(s: S, ms: seq<seq<Byte>>, k: nat, j: nat) {
    && Inv(s) && AreMessages(ms) && k <= j <= |ms|
    && s.sent == Frames(ms) && s.received == Frames(ms[..k])
    && (s.reader.Counted? || s.reader.Reading? ==> |s.received| + s.reader.count == |Frames(ms[..j])|)
  }

  lemma {:induction false} FramesSum(a: seq<seq<Byte>>, b: seq<seq<Byte>>)
    ensures Frames(a + b) == Frames(a) + Frames(b)
  {
    if a == [] {
      assert a + b == b;
    } else {
      assert (a + b)[0] == a[0] && (a + b)[1..] == a[1..] + b;
      FramesSum(a[1..], b);
    }
  }

  /** The bytes from message k on, and those up to message j. */
  lemma FromMessage(ms: seq<seq<Byte>>, k: nat, j: nat)
    requires k <= j <= |ms|
    ensures Frames(ms) == Frames(ms[..k]) + Frames(ms[k..])
    ensures Frames(ms[..j]) == Frames(ms[..k]) + Frames(ms[k..j])
  {
    assert ms == ms[..k] + ms[k..] && ms[..j] == ms[..k] + ms[k..j];
    FramesSum(ms[..k], ms[k..]);
    FramesSum(ms[..k], ms[k..j]);
  }

  lemma Published(s: S, ms: seq<seq<Byte>>, k: nat, j: nat) returns (ms': seq<seq<Byte>>)
    requires Told(s, ms, k, j) && Enabled(s, PublishHead) && MessageStep(s, PublishHead)
    ensures ms' == ms + [s.writer.data[HEADER..]] && Told(Do(s, PublishHead), ms', k, j)
  {
    var m := s.writer.data[HEADER..];
    ms' := ms + [m];
    StepInv(s, PublishHead);
    FramesSnoc(ms, m);
    assert ms'[..k] == ms[..k] && ms'[..j] == ms[..j];
  }

  lemma CountedMessages(s: S, ms: seq<seq<Byte>>, k: nat, j: nat)
    requires Told(s, ms, k, j) && Enabled(s, ReadHead)
    ensures Told(Do(s, ReadHead), ms, k, |ms|)
  {
    StepInv(s, ReadHead);
    Counts(s);
    assert ms[..|ms|] == ms;
  }

  /** What the reader holds of the next message. */
  lemma NextMessage(s: S, ms: seq<seq<Byte>>, k: nat, j: nat)
    requires Told(s, ms, k, j) && Enabled(s, PublishTail) && MessageStep(s, PublishTail)
    ensures k < j && s.reader.n == HEADER + |ms[k]|
    ensures Copied(s.reader.got, s.reader.n) == Frame(ms[k])
  {
    hide Inv;
    FromMessage(ms, k, j);
    assert Frames(ms[k..j]) != [];
    assert k < j;
    FromMessage(ms[k..j], 1, 1);
    assert ms[k..j][..1] == [ms[k]] && ms[k..][0] == ms[k];
    assert |Frames(ms[k..j])| >= HEADER + |ms[k]| by {
      assert AreMessages(ms[k..j]);
      FirstFrame(ms[k..j]);
    }
    assert AreMessages(ms[k..]);
    FirstFrame(ms[k..]);
    CopiedPart(s, ms, k, HEADER);
    CopiedPart(s, ms, k, s.reader.n);
  }

  lemma GotIsSent(s: S, i: nat)
    requires Inv(s) && s.reader.Reading? && i in s.reader.got
    ensures |s.received| + i < |s.sent| && s.reader.got[i] == s.sent[|s.received| + i]
  {
  }

  lemma CopiedPart(s: S, ms: seq<seq<Byte>>, k: nat, n: nat)
    requires Inv(s) && s.reader.Reading? && k <= |ms| && s.sent == Frames(ms) == Frames(ms[..k]) + Frames(ms[k..]) &&
             s.received == Frames(ms[..k])
    requires n <= s.reader.n && forall i: nat :: i < n ==> i in s.reader.got
    ensures n <= |Frames(ms[k..])| && Copied(s.reader.got, n) == Frames(ms[k..])[..n]
  {
    hide Inv, Frames;
    var rest := Frames(ms[k..]);
    forall i: nat | i in s.reader.got
      ensures |s.received| + i < |s.sent| && s.reader.got[i] == s.sent[|s.received| + i]
    {
      GotIsSent(s, i);
    }
    CopiedBytes(s.reader.got, n, s.received, rest);
  }

  lemma CopiedBytes(got: map<nat, Byte>, n: nat, received: seq<Byte>, rest: seq<Byte>)
    requires forall i: nat :: i < n ==> i in got
    requires forall i: nat :: i in got ==> i < |rest| && got[i] == (received + rest)[|received| + i]
    ensures n <= |rest| && Copied(got, n) == rest[..n]
  {
    if n > 0 {
      assert n - 1 in got;
    }
  }

  lemma ReceivedOne(s: S, ms: seq<seq<Byte>>, k: nat, j: nat)
    requires Told(s, ms, k, j) && Enabled(s, PublishTail) && MessageStep(s, PublishTail)
    ensures k < j && Told(Do(s, PublishTail), ms, k + 1, j)
  {
    NextMessage(s, ms, k, j);
    StepInv(s, PublishTail);
    FramesSnoc(ms[..k], ms[k]);
    assert ms[..k + 1] == ms[..k] + [ms[k]];
  }

  lemma OtherStep(s: S, ms: seq<seq<Byte>>, k: nat, j: nat, step: Step)
    requires Told(s, ms, k, j) && Enabled(s, step) && !step.PublishHead? && !step.PublishTail? && !step.ReadHead?
    ensures Told(Do(s, step), ms, k, j)
  {
    hide Inv;
    StepInv(s, step);
  }

  lemma {:induction false} RunTells(s: S, ms: seq<seq<Byte>>, k: nat, j: nat, steps: seq<Step>, s': S)
    returns (ms': seq<seq<Byte>>, k': nat, j': nat)
    requires Told(s, ms, k, j) && MessageRun(s, steps, s')
    ensures Told(s', ms', k', j')
    decreases |steps|
  {
    hide Told;
    if steps == [] {
      ms', k', j' := ms, k, j;
    } else {
      var step := steps[0];
      if step.PublishHead? {
        var more := Published(s, ms, k, j);
        ms', k', j' := RunTells(Do(s, step), more, k, j, steps[1..], s');
      } else if step.PublishTail? {
        ReceivedOne(s, ms, k, j);
        ms', k', j' := RunTells(Do(s, step), ms, k + 1, j, steps[1..], s');
      } else if step.ReadHead? {
        CountedMessages(s, ms, k, j);
        ms', k', j' := RunTells(Do(s, step), ms, k, |ms|, steps[1..], s');
      } else {
        OtherStep(s, ms, k, j, step);
        ms', k', j' := RunTells(Do(s, step), ms, k, j, steps[1..], s');
      }
    }
  }

  /** In every interleaving what has been sent is a sequence of whole messages, what has been received is a
      whole number of them, in order, and the ring holds exactly the others. */
  lemma WholeMessages(s: S, steps: seq<Step>, s': S) returns (ms: seq<seq<Byte>>, k: nat)
    requires Start(s) && MessageRun(s, steps, s')
    ensures AreMessages(ms) && k <= |ms| && s'.sent == Frames(ms) && s'.received == Frames(ms[..k])
    ensures Shape(s') && Buffered(s') == Frames(ms[k..])
  {
    var j;
    assert Told(s, [], 0, 0);
    ms, k, j := RunTells(s, [], 0, 0, steps, s');
    ReceivedThenBuffered(s');
    FromMessage(ms, k, j);
    assert Buffered(s') == s'.sent[|s'.received|..];
  }
}

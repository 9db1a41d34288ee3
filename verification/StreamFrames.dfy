/** Message framing in a message buffer: each message is stored behind its length. */
module StreamFrames {
  type Byte = b: nat | b < 256

  /** `sbBYTES_TO_STORE_MESSAGE_LENGTH`: a 64-bit `size_t`, least significant byte first. */
  const HEADER: nat := 8

  function Limit(bytes: nat): (n: nat)
    ensures n > 0
  {
    if bytes == 0 then 1 else 256 * Limit(bytes - 1)
  }

  function Encode(n: nat, bytes: nat): (s: seq<Byte>)
    ensures |s| == bytes
  {
    if bytes == 0 then [] else [n % 256] + Encode(n / 256, bytes - 1)
  }

  function Decode(s: seq<Byte>): nat {
    if s == [] then 0 else s[0] + 256 * Decode(s[1..])
  }

  lemma {:induction false} DecodeEncode(n: nat, bytes: nat)
    requires n < Limit(bytes)
    ensures Decode(Encode(n, bytes)) == n
  {
    if bytes > 0 {
      assert n / 256 < Limit(bytes - 1);
      DecodeEncode(n / 256, bytes - 1);
      assert Encode(n, bytes)[1..] == Encode(n / 256, bytes - 1);
    }
  }

  /** What a message buffer can hold as a message: nothing empty, and a length that fits its header. */
  predicate IsMessage(m: seq<Byte>) {
    0 < |m| < Limit(HEADER)
  }

  predicate AreMessages(ms: seq<seq<Byte>>) {
    forall i :: 0 <= i < |ms| ==> IsMessage(ms[i])
  }

  function Frame(m: seq<Byte>): (f: seq<Byte>)
    ensures |f| == HEADER + |m|
  {
    Encode(|m|, HEADER) + m
  }

  function Frames(ms: seq<seq<Byte>>): seq<Byte> {
    if ms == [] then [] else Frame(ms[0]) + Frames(ms[1..])
  }

  /** The contents begin with the header and the payload of the first message. */
  lemma FirstFrame(ms: seq<seq<Byte>>)
    requires ms != [] && AreMessages(ms)
    ensures |Frames(ms)| >= HEADER + |ms[0]|
    ensures Decode(Frames(ms)[..HEADER]) == |ms[0]|
    ensures Frames(ms)[HEADER..HEADER + |ms[0]|] == ms[0]
    ensures Frames(ms)[HEADER + |ms[0]|..] == Frames(ms[1..])
  {
    DecodeEncode(|ms[0]|, HEADER);
    assert Frames(ms)[..HEADER] == Encode(|ms[0]|, HEADER);
  }

  lemma {:induction false} FramesSnoc(ms: seq<seq<Byte>>, m: seq<Byte>)
    ensures Frames(ms + [m]) == Frames(ms) + Frame(m)
  {
    if ms == [] {
      assert (ms + [m])[1..] == [];
      assert Frames(ms + [m]) == Frame(m) + [];
    } else {
      FramesSnoc(ms[1..], m);
      assert (ms + [m])[1..] == ms[1..] + [m];
    }
  }

  /** The framing is self-delimiting: the bytes determine the messages. */
  lemma {:induction false} FramesDetermineMessages(a: seq<seq<Byte>>, b: seq<seq<Byte>>)
    requires AreMessages(a) && AreMessages(b) && Frames(a) == Frames(b)
    ensures a == b
    decreases |a|
  {
    if a == [] || b == [] {
      if a != [] {
        FirstFrame(a);
      } else if b != [] {
        FirstFrame(b);
      }
    } else {
      FirstFrame(a);
      FirstFrame(b);
      FramesDetermineMessages(a[1..], b[1..]);
      assert a == [a[0]] + a[1..] && b == [b[0]] + b[1..];
    }
  }

  /** A message buffer that is not empty holds more than a header. */
  lemma MoreThanAHeader(ms: seq<seq<Byte>>)
    requires AreMessages(ms)
    ensures ms == [] <==> |Frames(ms)| <= HEADER
    ensures ms == [] <==> Frames(ms) == []
  {
    if ms != [] {
      FirstFrame(ms);
    }
  }
}

/** `StreamBufferDef_t`: a byte ring with one writer and one reader, for plain streams and for
    messages. What the two do at the same time is the subject of `StreamProtocol`. */
module StreamBuffers {
  import opened Basics
  import opened StreamFrames

  // ----- positions in the ring

  function At(tail: nat, i: nat, length: nat): (p: nat)
    requires tail < length && i <= length
    ensures p < length
  {
    if tail + i < length then tail + i else tail + i - length
  }

  /** The number of bytes from the tail to the head. */
  function Distance(tail: nat, head: nat, length: nat): (n: nat)
    requires tail < length && head < length
    ensures n < length && At(tail, n, length) == head
    ensures forall m: nat :: m < length && At(tail, m, length) == head ==> m == n
  {
    if tail <= head then head - tail else head + length - tail
  }

  function Window(bytes: seq<Byte>, tail: nat, n: nat): (w: seq<Byte>)
    requires tail < |bytes| && n <= |bytes|
    ensures |w| == n
  {
    seq(n, i requires 0 <= i < n => bytes[At(tail, i, |bytes|)])
  }

  /** `now` is `was` with the data laid down from the head on. */
  ghost predicate Written(was: seq<Byte>, now: seq<Byte>, head: nat, data: seq<Byte>)
    requires head < |was| && |now| == |was| && |data| <= |was|
  {
    && Window(now, head, |data|) == data
    && (forall i :: |data| <= i < |was| ==> now[At(head, i, |was|)] == was[At(head, i, |was|)])
  }

  /** Writing into the free part leaves what is there and adds the data behind it. */
  lemma WriteExtends(was: seq<Byte>, now: seq<Byte>, tail: nat, n: nat, data: seq<Byte>)
    requires tail < |was| && |now| == |was| && n + |data| <= |was|
    requires n < |was| ==> Written(was, now, At(tail, n, |was|), data)
    requires n == |was| ==> now == was
    ensures Window(now, tail, n + |data|) == Window(was, tail, n) + data
  {
    if n < |was| {
      var head := At(tail, n, |was|);
      forall i | 0 <= i < n ensures now[At(tail, i, |was|)] == was[At(tail, i, |was|)] {
        assert At(head, |was| - n + i, |was|) == At(tail, i, |was|);
      }
      forall i | 0 <= i < |data| ensures now[At(tail, n + i, |was|)] == data[i] {
        assert At(head, i, |was|) == At(tail, n + i, |was|);
        assert Window(now, head, |data|)[i] == data[i];
      }
    }
  }

  /** Reading from the tail takes a prefix and leaves the rest. */
  lemma ReadSplits(bytes: seq<Byte>, tail: nat, n: nat, k: nat)
    requires tail < |bytes| && k <= n < |bytes|
    ensures Window(bytes, tail, k) == Window(bytes, tail, n)[..k]
    ensures Window(bytes, At(tail, k, |bytes|), n - k) == Window(bytes, tail, n)[k..]
  {
    forall i | 0 <= i < n - k ensures At(At(tail, k, |bytes|), i, |bytes|) == At(tail, k + i, |bytes|) {
    }
  }

  class StreamBuffer {
    const pucBuffer: array<Byte>
    const xLength: nat
    const isMessageBuffer: bool
    var xHead: nat
    var xTail: nat
    /** The messages in a message buffer. */
    ghost var messages: seq<seq<Byte>>

    ghost predicate Valid()
      reads this, pucBuffer
    {
      && pucBuffer.Length == xLength && xHead < xLength && xTail < xLength
      && (isMessageBuffer ==> AreMessages(messages) && Contents() == Frames(messages))
    }

    ghost function Contents(): (c: seq<Byte>)
      requires pucBuffer.Length == xLength && xHead < xLength && xTail < xLength
      reads this, pucBuffer
      ensures |c| == Distance(xTail, xHead, xLength)
    {
      Window(pucBuffer[..], xTail, Distance(xTail, xHead, xLength))
    }

    /** `xStreamBufferGenericCreate`: one byte more than asked for, to tell full from empty. */
    constructor (size: nat, message: bool)
      ensures Valid() && fresh(pucBuffer) && xLength == size + 1 && isMessageBuffer == message
      ensures Contents() == [] && messages == []
    {
      pucBuffer := new Byte[size + 1];
      xLength, isMessageBuffer := size + 1, message;
      xHead, xTail, messages := 0, 0, [];
    }

    method BytesInBuffer() returns (count: nat)
      requires Valid()
      ensures count == |Contents()|
    {
      count := xLength + xHead;
      count := count - xTail;
      if count >= xLength {
        count := count - xLength;
      }
    }

    method SpacesAvailable() returns (space: nat)
      requires Valid()
      ensures space == xLength - 1 - |Contents()|
    {
      space := xLength + xTail;
      space := space - xHead;
      space := space - 1;
      if space >= xLength {
        space := space - xLength;
      }
    }

    /** Copy the data into the ring, in two parts if it wraps; returns the head to publish. */
    method WriteBytesToBuffer(data: seq<Byte>, head: nat) returns (next: nat)
      requires pucBuffer.Length == xLength && head < xLength && |data| <= xLength
      modifies pucBuffer
      ensures Written(old(pucBuffer[..]), pucBuffer[..], head, data) && next == At(head, |data|, xLength)
    {
      var first := Min(xLength - head, |data|);
      forall i | 0 <= i < first {
        pucBuffer[head + i] := data[i];
      }
      if |data| > first {
        forall i | 0 <= i < |data| - first {
          pucBuffer[i] := data[first + i];
        }
      }
      next := head + |data|;
      if next >= xLength {
        next := next - xLength;
      }
    }

    method ReadBytesFromBuffer(count: nat, tail: nat) returns (data: seq<Byte>, next: nat)
      requires pucBuffer.Length == xLength && tail < xLength && count <= xLength
      ensures data == Window(pucBuffer[..], tail, count) && next == At(tail, count, xLength)
    {
      var first := Min(xLength - tail, count);
      data := pucBuffer[tail..tail + first];
      if count > first {
        data := data + pucBuffer[..count - first];
      }
      next := tail + count;
      if next >= xLength {
        next := next - xLength;
      }
    }

    // ----- writing

    /** Append to what is behind the tail, n bytes so far, without publishing. */
    method Extend(data: seq<Byte>, head: nat, ghost n: nat) returns (next: nat)
      requires pucBuffer.Length == xLength && xTail < xLength && n + |data| < xLength && head == At(xTail, n, xLength)
      modifies pucBuffer
      ensures Window(pucBuffer[..], xTail, n + |data|) == Window(old(pucBuffer[..]), xTail, n) + data
      ensures next == At(xTail, n + |data|, xLength)
    {
      ghost var was := pucBuffer[..];
      next := WriteBytesToBuffer(data, head);
      WriteExtends(was, pucBuffer[..], xTail, n, data);
    }

    /** `WriteMessageToBuffer`, for any `space` that is not more than there is. */
    method WriteMessageToBuffer(data: seq<Byte>, space: nat, required: nat) returns (written: nat)
      requires Valid() && space <= xLength - 1 - |Contents()|
      requires isMessageBuffer ==> required == |data| + HEADER < Limit(HEADER)
      modifies this`xHead, this`messages, pucBuffer
      ensures Valid()
      ensures isMessageBuffer ==>
                && written == (if required <= space then |data| else 0)
                && messages == if written > 0 then old(messages) + [data] else old(messages)
      ensures !isMessageBuffer ==>
                && written == Min(|data|, space) && messages == old(messages)
                && Contents() == old(Contents()) + data[..written]
    {
      if isMessageBuffer {
        if space >= required {
          PutMessage(data);
          written := |data|;
        } else {
          written := 0;
        }
      } else {
        written := Min(|data|, space);
        if written != 0 {
          xHead := Extend(data[..written], xHead, |Contents()|);
        }
      }
    }

    /** Header and payload, published together; an empty message leaves its header unpublished. */
    method PutMessage(data: seq<Byte>)
      requires Valid() && isMessageBuffer && |data| + HEADER <= xLength - 1 - |Contents()| &&
               |data| + HEADER < Limit(HEADER)
      modifies this`xHead, this`messages, pucBuffer
      ensures Valid() && messages == if data == [] then old(messages) else old(messages) + [data]
    {
      ghost var n := |Contents()|;
      ghost var c := Contents();
      var next := Extend(Encode(|data|, HEADER), xHead, n);
      ghost var c1 := Window(pucBuffer[..], xTail, n + HEADER);
      assert Window(pucBuffer[..], xTail, n) == c1[..n] == c;
      if |data| != 0 {
        xHead := Extend(data, next, n + HEADER);
        FramesSnoc(messages, data);
        messages := messages + [data];
        assert c1 + data == c + Frame(data);
      }
    }

    // ----- reading

    /** `ReadMessageFromBuffer`. A message longer than the reader's buffer stays where it is. */
    method ReadMessageFromBuffer(maxLength: nat, available: nat) returns (data: seq<Byte>)
      requires Valid() && 0 < available <= |Contents()|
      requires isMessageBuffer ==> available == |Contents()|
      modifies this`xTail, this`messages
      ensures Valid()
      ensures isMessageBuffer ==> Received(old(messages), maxLength, data, messages)
      ensures !isMessageBuffer ==>
                && |data| == Min(maxLength, available) && messages == old(messages)
                && old(Contents()) == data + Contents()
    {
      var next := xTail;
      var length := maxLength;
      var available' := available;
      ghost var start: nat := 0;
      if isMessageBuffer {
        MoreThanAHeader(messages);
        FirstFrame(messages);
        var header;
        header, next := ReadBytesFromBuffer(HEADER, next);
        ReadSplits(pucBuffer[..], xTail, |Contents()|, HEADER);
        length := Decode(header);
        available' := available - HEADER;
        start := HEADER;
        if length > maxLength {
          length := 0;
        }
      }
      data := [];
      var count := Min(length, available');
      if count != 0 {
        data := TakeBytes(start, count, next);
        if isMessageBuffer {
          messages := messages[1..];
        }
      }
    }

    method TakeBytes(ghost start: nat, count: nat, next: nat) returns (data: seq<Byte>)
      requires pucBuffer.Length == xLength && xHead < xLength && xTail < xLength
      requires start + count <= |Contents()| && next == At(xTail, start, xLength)
      modifies this`xTail
      ensures xTail < xLength
      ensures data == old(Contents())[start..start + count] && Contents() == old(Contents())[start + count..]
    {
      ghost var n := |Contents()|;
      ReadSplits(pucBuffer[..], xTail, n, start);
      ReadSplits(pucBuffer[..], next, n - start, count);
      ReadSplits(pucBuffer[..], xTail, n, start + count);
      data, xTail := ReadBytesFromBuffer(count, next);
    }

    /** The first message is received if there is one and it fits; otherwise nothing is, and nothing
        changes. */
    static ghost predicate Received(was: seq<seq<Byte>>, maxLength: nat, data: seq<Byte>, now: seq<seq<Byte>>) {
      if was != [] && |was[0]| <= maxLength then data == was[0] && now == was[1..] else data == [] && now == was
    }

    // ----- the calls, without waiting

    method Send(data: seq<Byte>) returns (written: nat)
      requires Valid() && (isMessageBuffer ==> |data| + HEADER < Limit(HEADER))
      modifies this`xHead, this`messages, pucBuffer
      ensures Valid()
      ensures isMessageBuffer ==>
                && written == (if |data| + HEADER <= xLength - 1 - old(|Contents()|) then |data| else 0)
                && messages == if written > 0 then old(messages) + [data] else old(messages)
      ensures !isMessageBuffer ==>
                && written == Min(|data|, xLength - 1 - old(|Contents()|)) && messages == old(messages)
                && Contents() == old(Contents()) + data[..written]
    {
      var required := |data|;
      if isMessageBuffer {
        required := required + HEADER;
      }
      var space := SpacesAvailable();
      written := WriteMessageToBuffer(data, space, required);
    }

    method Receive(maxLength: nat) returns (data: seq<Byte>)
      requires Valid()
      modifies this`xTail, this`messages
      ensures Valid()
      ensures isMessageBuffer ==> Received(old(messages), maxLength, data, messages)
      ensures !isMessageBuffer ==>
                && |data| == Min(maxLength, old(|Contents()|)) && messages == old(messages)
                && old(Contents()) == data + Contents()
    {
      var stored := if isMessageBuffer then HEADER else 0;
      var available := BytesInBuffer();
      data := [];
      if isMessageBuffer {
        MoreThanAHeader(messages);
      }
      if available > stored {
        data := ReadMessageFromBuffer(maxLength, available);
      }
    }

    method NextMessageLengthBytes() returns (length: nat)
      requires Valid()
      ensures length == if isMessageBuffer && messages != [] then |messages[0]| else 0
    {
      length := 0;
      if isMessageBuffer {
        MoreThanAHeader(messages);
        var available := BytesInBuffer();
        if available > HEADER {
          FirstFrame(messages);
          var header, next := ReadBytesFromBuffer(HEADER, xTail);
          ReadSplits(pucBuffer[..], xTail, |Contents()|, HEADER);
          length := Decode(header);
        }
      }
    }

    /** `xStreamBufferReset`, when no task waits on the buffer. */
    method Reset()
      requires Valid()
      modifies this`xHead, this`xTail, this`messages
      ensures Valid() && Contents() == [] && messages == []
    {
      xHead, xTail, messages := 0, 0, [];
    }
  }
}

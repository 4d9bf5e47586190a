/** stream_buffer.c: a ring of bytes between one writer and one reader, used alone or
    to carry messages, each behind a word that tells its length. */
module StreamBuffers {
  import opened Arithmetic

  type Byte = b: nat | b < 256
  const SIZE_LIMIT: nat := 0x1_0000_0000
  const BYTES_TO_STORE_MESSAGE_LENGTH: nat := 4

  // ----- the ring -----

  /** The i-th byte from a position on. */
  function At(bytes: seq<Byte>, start: nat, i: nat): Byte
    requires start < |bytes| && i < |bytes|
  {
    bytes[Wrap(start + i, |bytes|)]
  }

  /** The bytes from the tail on. */
  ghost function Window(bytes: seq<Byte>, tail: nat, count: nat): (window: seq<Byte>)
    requires tail < |bytes| && count <= |bytes|
    ensures |window| == count
    ensures forall i :: 0 <= i < count ==> window[i] == At(bytes, tail, i)
  {
    seq(count, i requires 0 <= i < count => At(bytes, tail, i))
  }

  /** Data has been written from the head on, and nothing else. */
  ghost predicate Wrote(bytes: seq<Byte>, bytes': seq<Byte>, head: nat, data: seq<Byte>)
    requires head < |bytes|
  {
    && |bytes'| == |bytes| && |data| <= |bytes|
    && (forall i :: 0 <= i < |bytes| ==> At(bytes', head, i) == if i < |data| then data[i] else At(bytes, head, i))
  }

  lemma WriteAppends(bytes: seq<Byte>, bytes': seq<Byte>, tail: nat, count: nat, data: seq<Byte>)
    requires tail < |bytes| && count + |data| < |bytes|
    requires Wrote(bytes, bytes', Wrap(tail + count, |bytes|), data)
    ensures Window(bytes', tail, count + |data|) == Window(bytes, tail, count) + data
  {
    var n, head := |bytes|, Wrap(tail + count, |bytes|);
    var after := Window(bytes', tail, count + |data|);
    forall i | 0 <= i < count + |data| ensures after[i] == (Window(bytes, tail, count) + data)[i] {
      var k := if i < count then n - count + i else i - count;
      assert Wrap(tail + i, n) == Wrap(head + k, n);
      assert At(bytes', tail, i) == At(bytes', head, k);
    }
  }

  lemma ReadTakes(bytes: seq<Byte>, tail: nat, count: nat, taken: nat)
    requires tail < |bytes| && taken <= count < |bytes|
    ensures Window(bytes, tail, taken) == Window(bytes, tail, count)[..taken]
    ensures Window(bytes, Wrap(tail + taken, |bytes|), count - taken) == Window(bytes, tail, count)[taken..]
  {
    forall i | 0 <= i < count - taken
      ensures Window(bytes, Wrap(tail + taken, |bytes|), count - taken)[i] == Window(bytes, tail, count)[taken..][i]
    {
      assert At(bytes, Wrap(tail + taken, |bytes|), i) == At(bytes, tail, taken + i);
    }
  }

  /** A read in two pieces, the second from the start of the buffer. */
  lemma TwoPieces(bytes: seq<Byte>, tail: nat, count: nat)
    requires tail < |bytes| && count <= |bytes|
    ensures var first := Min(|bytes| - tail, count);
            Window(bytes, tail, count) == bytes[tail..tail + first] + bytes[..count - first]
  {
  }

  // ----- the length word -----

  /** The bytes of a 32-bit word in the order in which memcpy finds them. */
  function LengthWord(n: nat): (word: seq<Byte>)
    ensures |word| == BYTES_TO_STORE_MESSAGE_LENGTH
  {
    [n % 256, n / 256 % 256, n / 65536 % 256, n / 16777216 % 256]
  }

  function LengthOf(word: seq<Byte>): nat
    requires |word| == BYTES_TO_STORE_MESSAGE_LENGTH
  {
    (word[0] as nat) + 256 * (word[1] as nat) + 65536 * (word[2] as nat) + 16777216 * (word[3] as nat)
  }

  lemma LengthWordIsExact(n: nat)
    requires n < SIZE_LIMIT
    ensures LengthOf(LengthWord(n)) == n
  {
    var a := n / 256;
    var b := a / 256;
    assert n / 65536 == b && n / 16777216 == b / 256;
  }

  // ----- frames -----

  /** A message that can be sent: not empty, and with a length that fits the word. */
  predicate Sendable(message: seq<Byte>) {
    0 < |message| < SIZE_LIMIT
  }

  function Frame(message: seq<Byte>): seq<Byte> {
    LengthWord(|message|) + message
  }

  function Frames(messages: seq<seq<Byte>>): seq<Byte> {
    if messages == [] then [] else Frames(messages[..|messages|-1]) + Frame(messages[|messages|-1])
  }

  /** What a reader makes of the bytes. */
  function Parsed(bytes: seq<Byte>): seq<seq<Byte>>
    decreases |bytes|
  {
    if |bytes| <= BYTES_TO_STORE_MESSAGE_LENGTH then []
    else
      var n := LengthOf(bytes[..BYTES_TO_STORE_MESSAGE_LENGTH]);
      var rest := bytes[BYTES_TO_STORE_MESSAGE_LENGTH..];
      if n > |rest| then [] else [rest[..n]] + Parsed(rest[n..])
  }

  lemma {:induction false} FirstFrame(messages: seq<seq<Byte>>)
    requires messages != []
    ensures Frames(messages) == Frame(messages[0]) + Frames(messages[1..])
  {
    if |messages| == 1 {
      assert messages[..0] == [] && messages[1..] == [];
    } else {
      var last := messages[|messages|-1];
      FirstFrame(messages[..|messages|-1]);
      assert messages[1..][..|messages|-2] == messages[..|messages|-1][1..];
      assert Frame(messages[0]) + (Frames(messages[..|messages|-1][1..]) + Frame(last))
          == Frame(messages[0]) + Frames(messages[..|messages|-1][1..]) + Frame(last);
    }
  }

  /** Framing is a round trip for every sequence of messages. */
  lemma {:induction false} ParsingUndoesFraming(messages: seq<seq<Byte>>)
    requires forall m :: m in messages ==> Sendable(m)
    ensures Parsed(Frames(messages)) == messages
    decreases |messages|
  {
    if messages != [] {
      FirstFrame(messages);
      assert Sendable(messages[0]);
      ParsingUndoesFraming(messages[1..]);
      ParsingTakesAFrame(messages[0], Frames(messages[1..]));
    }
  }

  lemma ParsingTakesAFrame(message: seq<Byte>, rest: seq<Byte>)
    requires Sendable(message)
    ensures Parsed(Frame(message) + rest) == [message] + Parsed(rest)
  {
    LengthWordIsExact(|message|);
    var bytes := Frame(message) + rest;
    assert bytes[..BYTES_TO_STORE_MESSAGE_LENGTH] == LengthWord(|message|);
    assert bytes[BYTES_TO_STORE_MESSAGE_LENGTH..] == message + rest;
    assert (message + rest)[..|message|] == message && (message + rest)[|message|..] == rest;
    hide LengthWord, LengthOf;
  }

  /** A copy of data to a position, or in two pieces at the end and at the start. */
  lemma TwoCopies(bytes: seq<Byte>, bytes': seq<Byte>, head: nat, data: seq<Byte>)
    requires head < |bytes| && |bytes'| == |bytes| && |data| < |bytes|
    requires var first := Min(|bytes| - head, |data|);
             forall j :: 0 <= j < |bytes| ==>
               bytes'[j] == if head <= j < head + first then data[j - head]
                            else if j < |data| - first then data[first + j] else bytes[j]
    ensures Wrote(bytes, bytes', head, data)
  {
    forall i | 0 <= i < |bytes| ensures At(bytes', head, i) == if i < |data| then data[i] else At(bytes, head, i) {
      assert bytes'[Wrap(head + i, |bytes|)] == At(bytes', head, i);
    }
  }

  // ----- the buffer -----

  class StreamBuffer {
    const buffer: array<Byte>
    const length: nat
    const isMessageBuffer: bool
    var tail: nat
    var head: nat
    /** The messages in a message buffer. */
    ghost var messages: seq<seq<Byte>>

    /** The size of the buffer leaves the sums of two indices within a size_t. */
    ghost predicate Shaped()
      reads this
    {
      && BYTES_TO_STORE_MESSAGE_LENGTH < length && 2 * length <= SIZE_LIMIT && buffer.Length == length
      && head < length && tail < length
    }

    ghost predicate Valid()
      reads this, buffer
    {
      && Shaped()
      && (isMessageBuffer ==> Contents() == Frames(messages) && forall m :: m in messages ==> Sendable(m))
    }

    ghost function Contents(): (bytes: seq<Byte>)
      requires Shaped()
      reads this, buffer
      ensures |bytes| == Count()
    {
      Window(buffer[..], tail, Count())
    }

    ghost function Count(): (n: nat)
      requires Shaped()
      reads this
      ensures n < length && head == Wrap(tail + n, length)
    {
      if tail <= head then head - tail else length + head - tail
    }

    /** The messages are what a reader would make of the bytes. */
    lemma MessagesAreParsed()
      requires Valid() && isMessageBuffer
      ensures messages == Parsed(Contents())
    {
      ParsingUndoesFraming(messages);
    }

    /** prvInitialiseNewStreamBuffer */
    constructor (length: nat, isMessageBuffer: bool)
      requires BYTES_TO_STORE_MESSAGE_LENGTH < length && 2 * length <= SIZE_LIMIT
      ensures Valid() && fresh(buffer) && Contents() == [] && messages == []
      ensures this.length == length && this.isMessageBuffer == isMessageBuffer
    {
      this.length, this.isMessageBuffer := length, isMessageBuffer;
      buffer := new Byte[length];
      tail, head, messages := 0, 0, [];
    }

    /** prvBytesInBuffer */
    method BytesInBuffer() returns (count: nat)
      requires Shaped()
      ensures count == |Contents()|
    {
      count := length + head;
      count := count - tail;
      if count >= length {
        count := count - length;
      }
    }

    /** xStreamBufferSpacesAvailable: the bytes and the spaces make up the capacity,
        which is one less than the size. */
    method SpacesAvailable() returns (space: nat)
      requires Shaped()
      ensures space + |Contents()| == length - 1
    {
      space := length + tail;
      space := space - head;
      space := space - 1;
      if space >= length {
        space := space - length;
      }
    }

    /** The two copies of prvWriteBytesToBuffer. */
    method CopyIn(data: seq<Byte>)
      requires Shaped() && |data| < length
      modifies buffer
      ensures Wrote(old(buffer[..]), buffer[..], head, data)
    {
      hide Wrote;
      ghost var was := buffer[..];
      var firstLength := Min(length - head, |data|);
      forall i | 0 <= i < firstLength {
        buffer[head + i] := data[i];
      }
      if |data| > firstLength {
        forall i | 0 <= i < |data| - firstLength {
          buffer[i] := data[firstLength + i];
        }
      }
      TwoCopies(was, buffer[..], head, data);
    }

    /** prvWriteBytesToBuffer */
    method WriteBytes(data: seq<Byte>)
      requires Shaped() && 0 < |data| && |Contents()| + |data| < length
      modifies this`head, buffer
      ensures Shaped() && Contents() == old(Contents()) + data
    {
      hide Wrote, Window;
      ghost var was, count := buffer[..], Count();
      CopyIn(data);
      WriteAppends(was, buffer[..], tail, count, data);
      var nextHead := head + |data|;
      if nextHead >= length {
        nextHead := nextHead - length;
      }
      head := nextHead;
    }

    /** The two copies of prvReadBytesFromBuffer. */
    method CopyOut(count: nat) returns (data: seq<Byte>)
      requires Shaped() && count <= length
      ensures data == Window(buffer[..], tail, count)
    {
      TwoPieces(buffer[..], tail, count);
      hide Window;
      var firstLength := Min(length - tail, count);
      data := buffer[tail..tail + firstLength];
      if count > firstLength {
        data := data + buffer[..count - firstLength];
      }
    }

    /** prvReadBytesFromBuffer */
    method ReadBytes(maxCount: nat, bytesAvailable: nat) returns (data: seq<Byte>)
      requires Shaped() && bytesAvailable <= |Contents()|
      modifies this`tail
      ensures Shaped() && |data| == if maxCount < bytesAvailable then maxCount else bytesAvailable
      ensures data + Contents() == old(Contents())
    {
      hide Window;
      var count := Min(bytesAvailable, maxCount);
      ReadTakes(buffer[..], tail, Count(), count);
      data := CopyOut(count);
      if count > 0 {
        var nextTail := tail + count;
        if nextTail >= length {
          nextTail := nextTail - length;
        }
        tail := nextTail;
      }
    }

    /** prvWriteMessageToBuffer: as much of the data as there is space for, or in a
        message buffer a whole frame or nothing. */
    method WriteMessage(data: seq<Byte>, space: nat, requiredSpace: nat) returns (written: nat)
      requires Valid() && Sendable(data) && space == length - 1 - |Contents()|
      requires requiredSpace == |data| + if isMessageBuffer then BYTES_TO_STORE_MESSAGE_LENGTH else 0
      modifies this`head, this`messages, buffer
      ensures Valid()
      ensures written == if isMessageBuffer then (if requiredSpace <= space then |data| else 0) else Min(|data|, space)
      ensures Contents() == old(Contents()) + if written == 0 then [] else if isMessageBuffer then Frame(data)
              else data[..written]
      ensures isMessageBuffer ==> messages == old(messages) + if written == 0 then [] else [data]
    {
      hide Window, Frames, LengthWord;
      written := 0;
      if space == 0 {
      } else if !isMessageBuffer {
        written := Min(|data|, space);
        WriteBytes(data[..written]);
      } else if space >= requiredSpace {
        FramesGrow(messages, data);
        ghost var was := Contents();
        WriteBytes(LengthWord(|data|));
        WriteBytes(data);
        assert was + LengthWord(|data|) + data == was + Frame(data);
        messages := messages + [data];
        written := |data|;
      }
    }

    /** The part of xStreamBufferSend that does not wait, which is also
        xStreamBufferSendFromISR. */
    method Send(data: seq<Byte>) returns (sent: nat)
      requires Valid() && Sendable(data) && |data| + BYTES_TO_STORE_MESSAGE_LENGTH < SIZE_LIMIT
      modifies this`head, this`messages, buffer
      ensures Valid()
      ensures isMessageBuffer ==>
                if old(|Contents()|) + BYTES_TO_STORE_MESSAGE_LENGTH + |data| < length
                then sent == |data| && messages == old(messages) + [data]
                else sent == 0 && messages == old(messages) && Contents() == old(Contents())
      ensures !isMessageBuffer ==>
                && sent <= |data| && Contents() == old(Contents()) + data[..sent]
                && (sent == |data| || |Contents()| == length - 1)
    {
      hide Window, Frames;
      var requiredSpace := |data|;
      if isMessageBuffer {
        requiredSpace := requiredSpace + BYTES_TO_STORE_MESSAGE_LENGTH;
      }
      var space := SpacesAvailable();
      sent := WriteMessage(data, space, requiredSpace);
    }

    /** prvReadMessageFromBuffer.  If the reader's buffer is too small for the message,
        the tail goes back to where it was before the length word was read. */
    method ReadMessage(bufferLength: nat, bytesAvailable: nat) returns (data: seq<Byte>)
      requires Valid() && bytesAvailable == |Contents()| > 0
      modifies this`tail, this`messages
      ensures Valid()
      ensures isMessageBuffer ==>
                && old(messages) != []
                && if |old(messages)[0]| <= bufferLength then data == old(messages)[0] && messages == old(messages)[1..]
                   else data == [] && messages == old(messages) && Contents() == old(Contents())
      ensures !isMessageBuffer ==>
                |data| == Min(bufferLength, bytesAvailable) && data + Contents() == old(Contents())
    {
      hide Window, Frames, LengthWord, LengthOf;
      var nextMessageLength, available := bufferLength, bytesAvailable;
      if isMessageBuffer {
        NothingInEmptyFrames(messages);
        FirstFrame(messages);
        assert Sendable(messages[0]);
        LengthWordIsExact(|messages[0]|);
        var originalTail := tail;
        var word := ReadBytes(BYTES_TO_STORE_MESSAGE_LENGTH, bytesAvailable);
        SplitAfter(word, Contents(), messages[0], Frames(messages[1..]));
        nextMessageLength := LengthOf(word);
        available := available - BYTES_TO_STORE_MESSAGE_LENGTH;
        if nextMessageLength > bufferLength {
          tail := originalTail;
          nextMessageLength := 0;
        }
      }
      ghost var before := Contents();
      data := ReadBytes(nextMessageLength, available);
      if isMessageBuffer {
        if nextMessageLength > 0 {
          SplitPrefix(data, Contents(), messages[0], Frames(messages[1..]));
          messages := messages[1..];
        } else {
          assert data == [] && Contents() == before;
        }
      }
    }

    /** The part of xStreamBufferReceive that does not wait, which is also
        xStreamBufferReceiveFromISR. */
    method Receive(bufferLength: nat) returns (data: seq<Byte>)
      requires Valid()
      modifies this`tail, this`messages
      ensures Valid()
      ensures isMessageBuffer ==>
                if old(messages) != [] && |old(messages)[0]| <= bufferLength
                then data == old(messages)[0] && messages == old(messages)[1..]
                else data == [] && messages == old(messages) && Contents() == old(Contents())
      ensures !isMessageBuffer ==>
                && data + Contents() == old(Contents()) && |data| <= bufferLength
                && (|data| == bufferLength || Contents() == [])
    {
      hide Window, Frames;
      var bytesToStoreMessageLength := if isMessageBuffer then BYTES_TO_STORE_MESSAGE_LENGTH else 0;
      if isMessageBuffer {
        FramesAreLong(messages);
      }
      var bytesAvailable := BytesInBuffer();
      data := [];
      if bytesAvailable > bytesToStoreMessageLength {
        data := ReadMessage(bufferLength, bytesAvailable);
      }
    }

    /** xStreamBufferNextMessageLengthBytes.  Its assertion that a message buffer with
        no whole frame is empty holds as long as no writer is at work at the same
        time; MessageBuffers says exactly when it fails otherwise. */
    method NextMessageLengthBytes() returns (n: nat)
      requires Valid()
      modifies this`tail
      ensures Valid() && tail == old(tail)
      ensures n == if isMessageBuffer && messages != [] then |messages[0]| else 0
    {
      hide Window, Frames, LengthWord, LengthOf;
      n := 0;
      if isMessageBuffer {
        FramesAreLong(messages);
        var bytesAvailable := BytesInBuffer();
        if bytesAvailable > BYTES_TO_STORE_MESSAGE_LENGTH {
          FirstFrame(messages);
          assert Sendable(messages[0]);
          LengthWordIsExact(|messages[0]|);
          var originalTail := tail;
          var word := ReadBytes(BYTES_TO_STORE_MESSAGE_LENGTH, bytesAvailable);
          SplitAfter(word, Contents(), messages[0], Frames(messages[1..]));
          n := LengthOf(word);
          tail := originalTail;
        } else {
          assert bytesAvailable == 0;
        }
      }
    }
  }

  lemma FramesAreLong(messages: seq<seq<Byte>>)
    requires forall m :: m in messages ==> Sendable(m)
    ensures if messages == [] then Frames(messages) == [] else |Frames(messages)| > BYTES_TO_STORE_MESSAGE_LENGTH
  {
    if messages != [] {
      FirstFrame(messages);
      assert Sendable(messages[0]);
    }
  }

  lemma FramesGrow(messages: seq<seq<Byte>>, data: seq<Byte>)
    ensures Frames(messages + [data]) == Frames(messages) + Frame(data)
  {
    assert (messages + [data])[..|messages|] == messages;
  }

  lemma NothingInEmptyFrames(messages: seq<seq<Byte>>)
    requires |Frames(messages)| > 0
    ensures messages != []
  {
  }

  lemma SplitAfter(word: seq<Byte>, rest: seq<Byte>, message: seq<Byte>, frames: seq<Byte>)
    requires word + rest == Frame(message) + frames && |word| == BYTES_TO_STORE_MESSAGE_LENGTH
    ensures word == LengthWord(|message|) && rest == message + frames
  {
    var all := Frame(message) + frames;
    assert all[..|word|] == LengthWord(|message|) && all[|word|..] == message + frames;
    assert (word + rest)[..|word|] == word && (word + rest)[|word|..] == rest;
  }

  lemma SplitPrefix(data: seq<Byte>, rest: seq<Byte>, message: seq<Byte>, frames: seq<Byte>)
    requires data + rest == message + frames && |data| == |message|
    ensures data == message && rest == frames
  {
    assert (data + rest)[..|data|] == data && (data + rest)[|data|..] == rest;
    assert (message + frames)[..|data|] == message && (message + frames)[|data|..] == frames;
  }
}
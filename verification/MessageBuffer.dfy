/** stream_buffer.c: a message buffer between one writer and one reader that run at
    the same time, and that share the bytes and the two indices without any lock.  A
    step copies one byte, reads an index of the other side, or publishes an index. */
module MessageBuffers {
  import opened Arithmetic
  import opened StreamBuffers

  type Message = seq<Byte>

  /** Where the writer is in xStreamBufferSend: it has read the tail and found so much
      space; it has copied so many bytes of the length word, or of the message. */
  datatype Writer =
    | NotSending
    | FoundSpace(message: Message, space: nat)
    | WritingLength(message: Message, copied: nat)
    | WritingData(message: Message, copied: nat)

  /** Where the reader is in xStreamBufferReceive. */
  datatype Reader =
    | NotReceiving
    | FoundBytes(available: nat)
    | ReadingLength(available: nat, word: seq<Byte>)
    | ReadingData(count: nat, data: seq<Byte>)

  /** The shared buffer, the two sides, and what they have sent and received. */
  datatype Shared = Shared(
    bytes: seq<Byte>, head: nat, tail: nat,
    writer: Writer, reader: Reader, sent: seq<Message>, received: seq<Message>)

  datatype Step =
    | StartSend(message: Message)
    | DecideToSend
    | CopyLengthIn
    | PublishLength
    | CopyDataIn
    | PublishData
    | StartReceive
    | DecideToReceive
    | CopyLengthOut
    | PublishLengthTaken
    | CopyDataOut
    | PublishDataTaken

  ghost predicate Shaped(b: Shared) {
    BYTES_TO_STORE_MESSAGE_LENGTH < |b.bytes| && b.head < |b.bytes| && b.tail < |b.bytes|
  }

  /** prvBytesInBuffer */
  function Count(b: Shared): (n: nat)
    requires b.head < |b.bytes| && b.tail < |b.bytes|
    ensures n < |b.bytes| && b.head == Wrap(b.tail + n, |b.bytes|)
  {
    if b.tail <= b.head then b.head - b.tail else |b.bytes| + b.head - b.tail
  }

  /** xStreamBufferSpacesAvailable */
  function Space(b: Shared): nat
    requires b.head < |b.bytes| && b.tail < |b.bytes|
  {
    |b.bytes| - 1 - Count(b)
  }

  /** The reader's own buffer is assumed to be large enough for every message. */
  ghost predicate Enabled(b: Shared, s: Step) {
    && Shaped(b)
    && match s
       case StartSend(m) => b.writer.NotSending? && Sendable(m)
       case DecideToSend => b.writer.FoundSpace?
       case CopyLengthIn => b.writer.WritingLength? && b.writer.copied < BYTES_TO_STORE_MESSAGE_LENGTH
       case PublishLength => b.writer.WritingLength? && b.writer.copied == BYTES_TO_STORE_MESSAGE_LENGTH
       case CopyDataIn => b.writer.WritingData? && b.writer.copied < |b.writer.message|
       case PublishData => b.writer.WritingData? && b.writer.copied == |b.writer.message|
       case StartReceive => b.reader.NotReceiving?
       case DecideToReceive => b.reader.FoundBytes?
       case CopyLengthOut => b.reader.ReadingLength? && |b.reader.word| < BYTES_TO_STORE_MESSAGE_LENGTH
       case PublishLengthTaken => b.reader.ReadingLength? && |b.reader.word| == BYTES_TO_STORE_MESSAGE_LENGTH
       case CopyDataOut => b.reader.ReadingData? && |b.reader.data| < b.reader.count
       case PublishDataTaken => b.reader.ReadingData? && |b.reader.data| == b.reader.count
  }

  /** An index that moves on, round the end if need be. */
  function Advanced(i: nat, n: nat, length: nat): nat {
    if i + n >= length && i + n - length < length then i + n - length else i + n
  }

  function PutByte(b: Shared, i: nat, x: Byte): seq<Byte>
    requires b.head < |b.bytes|
  {
    if i < |b.bytes| then b.bytes[Wrap(b.head + i, |b.bytes|) := x] else b.bytes
  }

  function GetByte(b: Shared, i: nat): Byte
    requires b.tail < |b.bytes|
  {
    if i < |b.bytes| then At(b.bytes, b.tail, i) else 0
  }

  function Apply(b: Shared, s: Step): Shared
    requires Enabled(b, s)
  {
    match s
    case StartSend(m) => b.(writer := FoundSpace(m, Space(b)))
    case DecideToSend =>
      b.(writer := if b.writer.space >= |b.writer.message| + BYTES_TO_STORE_MESSAGE_LENGTH
                   then WritingLength(b.writer.message, 0) else NotSending)
    case CopyLengthIn =>
      b.(bytes := PutByte(b, b.writer.copied, LengthWord(|b.writer.message|)[b.writer.copied]),
         writer := WritingLength(b.writer.message, b.writer.copied + 1))
    case PublishLength =>
      b.(head := Advanced(b.head, BYTES_TO_STORE_MESSAGE_LENGTH, |b.bytes|), writer := WritingData(b.writer.message, 0))
    case CopyDataIn =>
      b.(bytes := PutByte(b, b.writer.copied, b.writer.message[b.writer.copied]),
         writer := WritingData(b.writer.message, b.writer.copied + 1))
    case PublishData =>
      b.(head := Advanced(b.head, |b.writer.message|, |b.bytes|), writer := NotSending,
        sent := b.sent + [b.writer.message])
    case StartReceive => b.(reader := FoundBytes(Count(b)))
    case DecideToReceive =>
      b.(reader := if b.reader.available > BYTES_TO_STORE_MESSAGE_LENGTH then ReadingLength(b.reader.available, [])
                   else NotReceiving)
    case CopyLengthOut =>
      b.(reader := ReadingLength(b.reader.available, b.reader.word + [GetByte(b, |b.reader.word|)]))
    case PublishLengthTaken =>
      var left := if b.reader.available >= BYTES_TO_STORE_MESSAGE_LENGTH
                  then b.reader.available - BYTES_TO_STORE_MESSAGE_LENGTH else 0;
      b.(tail := Advanced(b.tail, BYTES_TO_STORE_MESSAGE_LENGTH, |b.bytes|),
         reader := ReadingData(Min(left, LengthOf(b.reader.word)), []))
    case CopyDataOut =>
      b.(reader := ReadingData(b.reader.count, b.reader.data + [GetByte(b, |b.reader.data|)]))
    case PublishDataTaken =>
      b.(tail := Advanced(b.tail, b.reader.count, |b.bytes|), reader := NotReceiving,
        received := b.received + [b.reader.data])
  }

  // ----- the invariant -----

  /** What has been sent and not yet received. */
  function Pending(b: Shared): seq<Message> {
    if |b.received| <= |b.sent| then b.sent[|b.received|..] else []
  }

  /** The frames of the pending messages, and behind them the length word of a
      message that is being written. */
  function Stream(b: Shared): seq<Byte> {
    Frames(Pending(b)) + if b.writer.WritingData? then LengthWord(|b.writer.message|) else []
  }

  /** How much of the first frame has been taken. */
  function Taken(b: Shared): nat {
    if b.reader.ReadingData? then BYTES_TO_STORE_MESSAGE_LENGTH else 0
  }

  /** The bytes between the indices are the stream, but for what has been taken. */
  ghost predicate Carries(b: Shared)
    requires Shaped(b)
  {
    Taken(b) <= |Stream(b)| && Window(b.bytes, b.tail, Count(b)) == Stream(b)[Taken(b)..]
  }

  /** The first bytes from the head on, which only the writer knows of. */
  ghost predicate Prepared(b: Shared, payload: seq<Byte>, copied: nat)
    requires Shaped(b)
  {
    && copied <= |payload| && Count(b) + |payload| < |b.bytes|
    && forall j :: 0 <= j < copied ==> At(b.bytes, b.head, j) == payload[j]
  }

  ghost predicate WriterOk(b: Shared)
    requires Shaped(b)
  {
    match b.writer
    case NotSending => true
    case FoundSpace(m, space) => Sendable(m) && space <= Space(b)
    case WritingLength(m, copied) =>
      Sendable(m) && Prepared(b, LengthWord(|m|), copied) && Count(b) + BYTES_TO_STORE_MESSAGE_LENGTH + |m| < |b.bytes|
    case WritingData(m, copied) => Sendable(m) && Prepared(b, m, copied)
  }

  /** The reader is at work on the first pending message, and all of it is there. */
  ghost predicate ReaderOk(b: Shared)
    requires Shaped(b)
  {
    match b.reader
    case NotReceiving => true
    case FoundBytes(available) => available > BYTES_TO_STORE_MESSAGE_LENGTH ==> Whole(b, available)
    case ReadingLength(available, word) =>
      Whole(b, available) && |word| <= BYTES_TO_STORE_MESSAGE_LENGTH && word == LengthWord(|Pending(b)[0]|)[..|word|]
    case ReadingData(count, data) =>
      Pending(b) != [] && count == |Pending(b)[0]| && |data| <= count && data == Pending(b)[0][..|data|]
  }

  ghost predicate Whole(b: Shared, available: nat)
    requires Shaped(b)
  {
    Pending(b) != [] && BYTES_TO_STORE_MESSAGE_LENGTH + |Pending(b)[0]| <= available <= Count(b)
  }

  ghost predicate Ok(b: Shared) {
    && Shaped(b) && b.received <= b.sent && (forall m :: m in b.sent ==> Sendable(m))
    && Carries(b) && WriterOk(b) && ReaderOk(b)
  }

  // ----- the indices -----

  /** A byte put beyond the head disturbs nothing that has been published. */
  lemma PutBeyondHead(b: Shared, payload: seq<Byte>, i: nat)
    requires Shaped(b) && Prepared(b, payload, i) && i < |payload|
    ensures var b' := b.(bytes := PutByte(b, i, payload[i]));
            && |b'.bytes| == |b.bytes| && Window(b'.bytes, b.tail, Count(b)) == Window(b.bytes, b.tail, Count(b))
            && Prepared(b', payload, i + 1)
  {
    var n, bytes' := |b.bytes|, PutByte(b, i, payload[i]);
    forall k | 0 <= k < Count(b) ensures At(bytes', b.tail, k) == At(b.bytes, b.tail, k) {
      assert Wrap(b.tail + k, n) != Wrap(b.head + i, n);
    }
    forall j | 0 <= j < i + 1 ensures At(bytes', b.head, j) == payload[j] {
      assert j < i ==> Wrap(b.head + j, n) != Wrap(b.head + i, n);
    }
  }

  /** Publishing the head adds what has been prepared. */
  lemma PublishHead(b: Shared, b': Shared, payload: seq<Byte>)
    requires Shaped(b) && Prepared(b, payload, |payload|)
    requires b'.head == Advanced(b.head, |payload|, |b.bytes|) && b'.tail == b.tail && b'.bytes == b.bytes
    ensures Shaped(b') && Count(b') == Count(b) + |payload|
    ensures Window(b'.bytes, b'.tail, Count(b')) == Window(b.bytes, b.tail, Count(b)) + payload
  {
    var n, all := |b.bytes|, Window(b.bytes, b.tail, Count(b) + |payload|);
    forall k | 0 <= k < Count(b) + |payload| ensures all[k] == (Window(b.bytes, b.tail, Count(b)) + payload)[k] {
      assert k >= Count(b) ==> At(b.bytes, b.tail, k) == At(b.bytes, b.head, k - Count(b));
    }
  }

  lemma SliceOfSum(s: seq<Byte>, more: seq<Byte>, k: nat)
    requires k <= |s|
    ensures (s + more)[k..] == s[k..] + more
  {
  }

  /** Publishing the tail gives up the first bytes. */
  lemma PublishTail(b: Shared, n: nat)
    requires Shaped(b) && n <= Count(b)
    ensures var b' := b.(tail := Advanced(b.tail, n, |b.bytes|));
            && Shaped(b') && Count(b') == Count(b) - n
            && Window(b.bytes, b'.tail, Count(b')) == Window(b.bytes, b.tail, Count(b))[n..]
  {
    ReadTakes(b.bytes, b.tail, Count(b), n);
  }

  // ----- every step keeps the invariant -----

  /** What follows the first pending message in the stream. */
  function Rest(b: Shared): seq<Byte>
    requires Pending(b) != []
  {
    Frames(Pending(b)[1..]) + if b.writer.WritingData? then LengthWord(|b.writer.message|) else []
  }

  lemma StreamBegins(b: Shared)
    requires Pending(b) != []
    ensures Stream(b) == LengthWord(|Pending(b)[0]|) + (Pending(b)[0] + Rest(b))
    ensures Stream(b)[BYTES_TO_STORE_MESSAGE_LENGTH..] == Pending(b)[0] + Rest(b)
  {
    FirstFrame(Pending(b));
    hide Frames, Pending, LengthWord;
  }

  /** A stream that is longer than a length word holds a whole frame. */
  lemma LongStreamsAreWhole(b: Shared)
    requires |Stream(b)| > BYTES_TO_STORE_MESSAGE_LENGTH
    ensures Pending(b) != [] && BYTES_TO_STORE_MESSAGE_LENGTH + |Pending(b)[0]| <= |Stream(b)|
  {
    if Pending(b) != [] {
      StreamBegins(b);
    }
  }

  /** The reader does not notice what the writer does. */
  lemma ReaderUndisturbed(b: Shared, b': Shared)
    requires Shaped(b) && ReaderOk(b) && Shaped(b') && b'.reader == b.reader && Count(b) <= Count(b')
    requires Pending(b) != [] ==> Pending(b') != [] && Pending(b')[0] == Pending(b)[0]
    ensures ReaderOk(b')
  {
  }

  lemma PutOk(b: Shared, payload: seq<Byte>, i: nat, writer: Writer)
    requires Ok(b) && Prepared(b, payload, i) && i < |payload|
    requires writer.WritingData? == b.writer.WritingData?
    requires b.writer.WritingData? ==> writer.message == b.writer.message
    requires var b' := b.(bytes := PutByte(b, i, payload[i]), writer := writer);
             |b'.bytes| == |b.bytes| && (Prepared(b', payload, i + 1) ==> WriterOk(b'))
    ensures Ok(b.(bytes := PutByte(b, i, payload[i]), writer := writer))
  {
    hide LengthWord, Frames, Window;
    PutBeyondHead(b, payload, i);
    var b' := b.(bytes := PutByte(b, i, payload[i]), writer := writer);
    ReaderUndisturbed(b, b');
  }

  /** Publishing the head adds to the stream what the writer has prepared. */
  lemma PublishHeadOk(b: Shared, b': Shared, payload: seq<Byte>)
    requires Ok(b) && Prepared(b, payload, |payload|)
    requires b' == b.(head := Advanced(b.head, |payload|, |b.bytes|), writer := b'.writer, sent := b'.sent)
    requires Stream(b') == Stream(b) + payload && b'.received <= b'.sent && forall m :: m in b'.sent ==> Sendable(m)
    requires Pending(b) != [] ==> Pending(b') != [] && Pending(b')[0] == Pending(b)[0]
    requires Shaped(b') ==> Count(b') == Count(b) + |payload| ==> WriterOk(b')
    ensures Ok(b')
  {
    hide Stream, Pending, Window, Prepared, Frames, Sendable, WriterOk, ReaderOk, Carries, Advanced;
    CarriesMore(b, b', payload);
    ReaderUndisturbed(b, b');
  }

  lemma CarriesMore(b: Shared, b': Shared, payload: seq<Byte>)
    requires Shaped(b) && Carries(b) && Prepared(b, payload, |payload|)
    requires b' == b.(head := Advanced(b.head, |payload|, |b.bytes|), writer := b'.writer, sent := b'.sent)
    requires Stream(b') == Stream(b) + payload
    ensures Shaped(b') && Count(b') == Count(b) + |payload| && Carries(b')
  {
    hide Stream, Window, Prepared, Advanced;
    PublishHead(b, b', payload);
    SliceOfSum(Stream(b), payload, Taken(b));
  }

  lemma PublishLengthOk(b: Shared)
    requires Ok(b) && Enabled(b, PublishLength)
    ensures Ok(Apply(b, PublishLength))
  {
    hide LengthWord, Frames, Window;
    PublishHeadOk(b, Apply(b, PublishLength), LengthWord(|b.writer.message|));
  }

  lemma PublishDataOk(b: Shared)
    requires Ok(b) && Enabled(b, PublishData)
    ensures Ok(Apply(b, PublishData))
  {
    hide LengthWord, Frames, Window;
    var b', m := Apply(b, PublishData), b.writer.message;
    assert Pending(b') == Pending(b) + [m];
    FramesGrow(Pending(b), m);
    assert Frames(Pending(b)) + LengthWord(|m|) + m == Frames(Pending(b)) + (LengthWord(|m|) + m);
    assert Stream(b') == Stream(b) + m;
    hide Stream, Pending;
    PublishHeadOk(b, b', m);
  }

  lemma StartReceiveOk(b: Shared)
    requires Ok(b) && Enabled(b, StartReceive)
    ensures Ok(Apply(b, StartReceive))
  {
    if Count(b) > BYTES_TO_STORE_MESSAGE_LENGTH {
      LongStreamsAreWhole(b);
    }
    hide LengthWord, Frames, Window;
  }

  /** Nor does the writer notice what the reader does. */
  lemma WriterUndisturbed(b: Shared, b': Shared)
    requires Shaped(b) && WriterOk(b) && Shaped(b')
    requires b'.writer == b.writer && b'.bytes == b.bytes && b'.head == b.head && Count(b') <= Count(b)
    ensures WriterOk(b')
  {
  }

  /** The next byte to take out is the next byte of the stream. */
  lemma GetByteIsNext(b: Shared, i: nat)
    requires Shaped(b) && Carries(b) && i < Count(b)
    ensures Taken(b) + i < |Stream(b)| && GetByte(b, i) == Stream(b)[Taken(b) + i]
  {
    assert Window(b.bytes, b.tail, Count(b))[i] == At(b.bytes, b.tail, i);
    hide Stream, Window;
  }

  lemma CopyLengthOutOk(b: Shared)
    requires Ok(b) && Enabled(b, CopyLengthOut)
    ensures Ok(Apply(b, CopyLengthOut))
  {
    hide LengthWord, Frames, Window;
    StreamBegins(b);
    var b', i := Apply(b, CopyLengthOut), |b.reader.word|;
    GetByteIsNext(b, i);
    WriterUndisturbed(b, b');
    hide WriterOk, Prepared;
  }

  lemma CopyDataOutOk(b: Shared)
    requires Ok(b) && Enabled(b, CopyDataOut)
    ensures Ok(Apply(b, CopyDataOut))
  {
    hide LengthWord, Frames, Window;
    StreamBegins(b);
    var b', i := Apply(b, CopyDataOut), |b.reader.data|;
    GetByteIsNext(b, i);
    assert Stream(b)[BYTES_TO_STORE_MESSAGE_LENGTH + i] == (Pending(b)[0] + Rest(b))[i];
    WriterUndisturbed(b, b');
    hide WriterOk, Prepared;
  }

  /** Publishing the tail drops from the stream what the reader has taken. */
  lemma PublishTailOk(b: Shared, b': Shared, n: nat)
    requires Ok(b) && n <= Count(b)
    requires b' == b.(tail := Advanced(b.tail, n, |b.bytes|), reader := b'.reader, received := b'.received)
    requires Taken(b') <= |Stream(b')| && Stream(b')[Taken(b')..] == Stream(b)[Taken(b)..][n..]
            && b'.received <= b'.sent
    requires Shaped(b') ==> ReaderOk(b')
    ensures Ok(b')
  {
    PublishTail(b, n);
    hide Stream, Pending, Window, Frames, Sendable, ReaderOk;
    WriterUndisturbed(b, b');
  }

  lemma PublishLengthTakenOk(b: Shared)
    requires Ok(b) && Enabled(b, PublishLengthTaken)
    ensures Ok(Apply(b, PublishLengthTaken))
  {
    hide LengthWord, LengthOf, Frames, Window;
    var b', m := Apply(b, PublishLengthTaken), Pending(b)[0];
    assert m in b.sent && Sendable(m);
    LengthWordIsExact(|m|);
    assert b.reader.word == LengthWord(|m|);
    StreamBegins(b);
    PublishTailOk(b, b', BYTES_TO_STORE_MESSAGE_LENGTH);
  }

  lemma PublishDataTakenOk(b: Shared)
    requires Ok(b) && Enabled(b, PublishDataTaken)
    ensures Ok(Apply(b, PublishDataTaken))
    ensures |b.received| < |b.sent| && b.reader.data == b.sent[|b.received|]
  {
    hide LengthWord, Frames, Window;
    var b', m := Apply(b, PublishDataTaken), Pending(b)[0];
    assert b.reader.data == m == b.sent[|b.received|];
    StreamBegins(b);
    assert Pending(b') == Pending(b)[1..] && Stream(b') == Rest(b);
    assert (m + Rest(b))[|m|..] == Rest(b);
    hide Stream, Pending;
    PublishTailOk(b, b', |m|);
  }

  lemma DecideOk(b: Shared, s: Step)
    requires Ok(b) && Enabled(b, s) && (s.StartSend? || s.DecideToSend? || s.DecideToReceive?)
    ensures Ok(Apply(b, s))
  {
    hide LengthWord, Frames, Window;
  }

  lemma CopyInOk(b: Shared, s: Step)
    requires Ok(b) && Enabled(b, s) && (s.CopyLengthIn? || s.CopyDataIn?)
    ensures Ok(Apply(b, s))
  {
    hide LengthWord, Frames, Window;
    if s.CopyLengthIn? {
      PutOk(b, LengthWord(|b.writer.message|), b.writer.copied, WritingLength(b.writer.message, b.writer.copied + 1));
    } else {
      PutOk(b, b.writer.message, b.writer.copied, WritingData(b.writer.message, b.writer.copied + 1));
    }
  }

  lemma StepOk(b: Shared, s: Step)
    requires Ok(b) && Enabled(b, s)
    ensures Ok(Apply(b, s))
  {
    hide Ok;
    match s
    case StartSend(m) => DecideOk(b, s);
    case DecideToSend => DecideOk(b, s);
    case CopyLengthIn => CopyInOk(b, s);
    case PublishLength => PublishLengthOk(b);
    case CopyDataIn => CopyInOk(b, s);
    case PublishData => PublishDataOk(b);
    case StartReceive => StartReceiveOk(b);
    case DecideToReceive => DecideOk(b, s);
    case CopyLengthOut => CopyLengthOutOk(b);
    case PublishLengthTaken => PublishLengthTakenOk(b);
    case CopyDataOut => CopyDataOutOk(b);
    case PublishDataTaken => PublishDataTakenOk(b);
  }

  // ----- whole runs -----

  ghost predicate Initial(b: Shared) {
    && BYTES_TO_STORE_MESSAGE_LENGTH < |b.bytes| && b.head == b.tail == 0
    && b.writer == NotSending && b.reader == NotReceiving && b.sent == [] && b.received == []
  }

  ghost predicate IsRun(states: seq<Shared>, steps: seq<Step>) {
    && |states| == |steps| + 1 && Initial(states[0])
    && forall i :: 0 <= i < |steps| ==> Follows(states[i], steps[i], states[i + 1])
  }

  ghost predicate Follows(b: Shared, s: Step, b': Shared) {
    Enabled(b, s) && b' == Apply(b, s)
  }

  lemma {:induction false} EveryStateIsOk(states: seq<Shared>, steps: seq<Step>, i: nat)
    requires IsRun(states, steps) && i < |states|
    ensures Ok(states[i])
  {
    if i > 0 {
      EveryStateIsOk(states, steps, i - 1);
      assert Follows(states[i - 1], steps[i - 1], states[i]);
      StepOk(states[i - 1], steps[i - 1]);
    }
  }

  /** However the two sides are interleaved, the messages received are the first of
      those sent, whole and in order. */
  lemma MessagesArriveWholeAndInOrder(states: seq<Shared>, steps: seq<Step>, i: nat)
    requires IsRun(states, steps) && i < |states|
    ensures states[i].received <= states[i].sent
  {
    EveryStateIsOk(states, steps, i);
  }

  /** Each receive that completes returns the next message sent. */
  lemma EachReceiveReturnsTheNextMessage(states: seq<Shared>, steps: seq<Step>, i: nat)
    requires IsRun(states, steps) && i < |steps| && steps[i].PublishDataTaken?
    ensures var b := states[i];
            && b.reader.ReadingData? && |b.received| < |b.sent|
            && b.reader.data == b.sent[|b.received|]
            && states[i + 1].received == b.received + [b.sent[|b.received|]]
  {
    EveryStateIsOk(states, steps, i);
    assert Follows(states[i], steps[i], states[i + 1]);
    PublishDataTakenOk(states[i]);
  }

  /** Unless the reader is in the middle of a message, the bytes between the tail and
      the head are the frames of the messages not yet received, and at most one length
      word behind them. */
  lemma OnlyWholeFrames(states: seq<Shared>, steps: seq<Step>, i: nat)
    requires IsRun(states, steps) && i < |states| && !states[i].reader.ReadingData?
    ensures var b := states[i];
            && b.head < |b.bytes| && b.tail < |b.bytes| && |b.received| <= |b.sent|
            && Window(b.bytes, b.tail, Count(b)) ==
               Frames(b.sent[|b.received|..]) + if b.writer.WritingData? then LengthWord(|b.writer.message|) else []
  {
    EveryStateIsOk(states, steps, i);
    var b := states[i];
    assert Stream(b)[0..] == Stream(b);
  }

  /** A reader that is not in the middle of a message finds some bytes but no whole
      frame exactly while the writer of the only message is between its two publishes.
      That is when the assertion of xStreamBufferNextMessageLengthBytes, that a buffer
      without a whole frame is empty, fails. */
  lemma PartOfAFrameExactlyWhen(states: seq<Shared>, steps: seq<Step>, i: nat)
    requires IsRun(states, steps) && i < |states| && !states[i].reader.ReadingData?
    ensures var b := states[i];
            && b.head < |b.bytes| && b.tail < |b.bytes|
            && (0 < Count(b) <= BYTES_TO_STORE_MESSAGE_LENGTH <==> b.received == b.sent && b.writer.WritingData?)
  {
    EveryStateIsOk(states, steps, i);
    var b := states[i];
    assert Stream(b)[0..] == Stream(b);
    if Pending(b) != [] {
      assert Pending(b)[0] in b.sent && Sendable(Pending(b)[0]);
      StreamBegins(b);
    }
  }

  /** Such a state is reached: one message has been announced, and not yet written. */
  lemma PartOfAFrameIsReached() returns (states: seq<Shared>, steps: seq<Step>)
    ensures IsRun(states, steps) && states[|steps|].reader == NotReceiving
    ensures states[|steps|].head < |states[|steps|].bytes| && states[|steps|].tail < |states[|steps|].bytes|
    ensures 0 < Count(states[|steps|]) <= BYTES_TO_STORE_MESSAGE_LENGTH
  {
    var s0 := Shared([0, 0, 0, 0, 0, 0, 0, 0, 0, 0], 0, 0, NotSending, NotReceiving, [], []);
    var s1 := Apply(s0, StartSend([7]));
    var s2 := Apply(s1, DecideToSend);
    var s3 := Apply(s2, CopyLengthIn);
    var s4 := Apply(s3, CopyLengthIn);
    var s5 := Apply(s4, CopyLengthIn);
    var s6 := Apply(s5, CopyLengthIn);
    states := [s0, s1, s2, s3, s4, s5, s6, Apply(s6, PublishLength)];
    steps := [StartSend([7]), DecideToSend, CopyLengthIn, CopyLengthIn, CopyLengthIn, CopyLengthIn, PublishLength];
  }
  // ----- what a call decides, and when it is done -----

  predicate OfReader(s: Step) {
    s.StartReceive? || s.DecideToReceive? || s.CopyLengthOut? || s.PublishLengthTaken? || s.CopyDataOut?
    || s.PublishDataTaken?
  }

  lemma WriterStepSparesReader(b: Shared, s: Step, b': Shared)
    requires Follows(b, s, b') && !OfReader(s)
    ensures b'.reader == b.reader && b'.received == b.received && b.sent <= b'.sent && |b'.bytes| == |b.bytes|
  {
    hide LengthWord, Count, Wrap;
  }

  lemma ReaderStepSparesWriter(b: Shared, s: Step, b': Shared)
    requires Follows(b, s, b') && OfReader(s)
    ensures b'.writer == b.writer && b'.sent == b.sent && b'.bytes == b.bytes
  {
    hide LengthWord, LengthOf, Count, Wrap;
  }

  lemma {:induction false} WhatWasFoundStays(states: seq<Shared>, steps: seq<Step>, i: nat, j: nat)
    requires IsRun(states, steps) && i < j < |states| && steps[i].StartReceive?
    requires forall k :: i < k < j ==> !steps[k].DecideToReceive?
    ensures Shaped(states[i]) && states[j].reader == FoundBytes(Count(states[i]))
    ensures states[j].received == states[i].received
  {
    assert Follows(states[j - 1], steps[j - 1], states[j]);
    if j > i + 1 {
      WhatWasFoundStays(states, steps, i, j - 1);
      hide Count;
      if !OfReader(steps[j - 1]) {
        WriterStepSparesReader(states[j - 1], steps[j - 1], states[j]);
      }
    }
  }

  /** A receive goes on to read exactly when, in the state in which it looked, some
      message had been sent and not received; otherwise it returns nothing. */
  lemma ReceivesExactlyWhenThereIsAMessage(states: seq<Shared>, steps: seq<Step>, i: nat, j: nat)
    requires IsRun(states, steps) && i < j < |steps| && steps[i].StartReceive? && steps[j].DecideToReceive?
    requires forall k :: i < k < j ==> !steps[k].DecideToReceive?
    ensures states[j + 1].reader.ReadingLength? <==> states[i].received != states[i].sent
    ensures states[j + 1].reader.NotReceiving? <==> states[i].received == states[i].sent
    ensures states[j + 1].received == states[i].received
  {
    EveryStateIsOk(states, steps, i);
    WhatWasFoundStays(states, steps, i, j);
    assert Follows(states[i], steps[i], states[i + 1]) && Follows(states[j], steps[j], states[j + 1]);
    CountShowsMessages(states[i]);
  }

  /** There are more bytes than a length word exactly when there is a message. */
  lemma CountShowsMessages(b: Shared)
    requires Ok(b) && !b.reader.ReadingData?
    ensures Count(b) > BYTES_TO_STORE_MESSAGE_LENGTH <==> b.received != b.sent
  {
    assert Stream(b)[0..] == Stream(b);
    if Pending(b) != [] {
      assert Pending(b)[0] in b.sent && Sendable(Pending(b)[0]);
      StreamBegins(b);
    }
  }

  lemma {:induction false} SpaceFoundStays(states: seq<Shared>, steps: seq<Step>, i: nat, j: nat)
    requires IsRun(states, steps) && i < j < |states| && steps[i].StartSend?
    requires forall k :: i < k < j ==> !steps[k].DecideToSend?
    ensures Shaped(states[i])
    ensures states[j].writer == FoundSpace(steps[i].message, |states[i].bytes| - 1 - Count(states[i]))
    ensures states[j].sent == states[i].sent
  {
    assert Follows(states[j - 1], steps[j - 1], states[j]);
    if j > i + 1 {
      SpaceFoundStays(states, steps, i, j - 1);
      hide Count;
      if OfReader(steps[j - 1]) {
        ReaderStepSparesWriter(states[j - 1], steps[j - 1], states[j]);
      }
    }
  }

  /** A send goes on to write exactly when the length word and the data fit in the
      space that was free in the state in which it looked; otherwise it sends nothing. */
  lemma SendsExactlyWhenItFits(states: seq<Shared>, steps: seq<Step>, i: nat, j: nat)
    requires IsRun(states, steps) && i < j < |steps| && steps[i].StartSend? && steps[j].DecideToSend?
    requires forall k :: i < k < j ==> !steps[k].DecideToSend?
    ensures Shaped(states[i])
    ensures states[j + 1].writer.WritingLength? <==>
              Count(states[i]) + BYTES_TO_STORE_MESSAGE_LENGTH + |steps[i].message| < |states[i].bytes|
    ensures !states[j + 1].writer.WritingLength? ==> states[j + 1].writer.NotSending?
    ensures states[j + 1].sent == states[i].sent
  {
    SpaceFoundStays(states, steps, i, j);
    assert Follows(states[i], steps[i], states[i + 1]) && Follows(states[j], steps[j], states[j + 1]);
  }

  /** The steps of one side among those from i up to j. */
  function OwnSteps(steps: seq<Step>, reader: bool, i: nat, j: nat): nat
    requires i <= j <= |steps|
  {
    if i == j then 0 else OwnSteps(steps, reader, i, j - 1) + if OfReader(steps[j - 1]) == reader then 1 else 0
  }

  /** How far the reader of message m is after n of its own steps. */
  predicate ReaderAt(b: Shared, m: Message, n: nat) {
    if n == 1 then b.reader.FoundBytes? && b.reader.available > BYTES_TO_STORE_MESSAGE_LENGTH
    else if 2 <= n <= BYTES_TO_STORE_MESSAGE_LENGTH + 2 then b.reader.ReadingLength? && |b.reader.word| == n - 2
    else b.reader.ReadingData? && b.reader.count == |m| && |b.reader.data| + BYTES_TO_STORE_MESSAGE_LENGTH + 3 == n
  }

  lemma ReaderMoves(b: Shared, s: Step, b': Shared, m: Message, n: nat)
    requires Ok(b) && Ok(b') && Follows(b, s, b') && OfReader(s) && ReaderAt(b, m, n)
    requires 0 < n < BYTES_TO_STORE_MESSAGE_LENGTH + |m| + 3
    requires Pending(b) != [] && Pending(b)[0] == m
    ensures ReaderAt(b', m, n + 1) && b'.received == b.received && b'.sent == b.sent
  {
    hide LengthWord, LengthOf, Frames, Window, Count, Carries, WriterOk;
  }

  lemma {:induction false} ReceiveAdvances(states: seq<Shared>, steps: seq<Step>, i: nat, j: nat)
    requires IsRun(states, steps) && i < j < |states| && steps[i].StartReceive?
    requires |states[i].received| < |states[i].sent|
    requires OwnSteps(steps, true, i, j) <= BYTES_TO_STORE_MESSAGE_LENGTH + |states[i].sent[|states[i].received|]| + 3
    ensures states[j].received == states[i].received && states[i].sent <= states[j].sent
    ensures OwnSteps(steps, true, i, j) > 0
    ensures ReaderAt(states[j], states[i].sent[|states[i].received|], OwnSteps(steps, true, i, j))
  {
    hide Ok, Follows, Initial;
    var b, s, b' := states[j - 1], steps[j - 1], states[j];
    EveryStateIsOk(states, steps, j - 1);
    EveryStateIsOk(states, steps, j);
    assert Follows(b, s, b');
    if j == i + 1 {
      ReceiveStarts(b, s, b');
      assert OwnSteps(steps, true, i, j) == OwnSteps(steps, true, i, i) + 1;
    } else {
      ReceiveAdvances(states, steps, i, j - 1);
      if OfReader(s) {
        ReaderMoves(b, s, b', states[i].sent[|states[i].received|], OwnSteps(steps, true, i, j - 1));
      } else {
        WriterStepSparesReader(b, s, b');
      }
    }
  }

  lemma ReceiveStarts(b: Shared, s: Step, b': Shared)
    requires Ok(b) && Follows(b, s, b') && s.StartReceive? && |b.received| < |b.sent|
    ensures b'.received == b.received && b'.sent == b.sent
    ensures b'.reader.FoundBytes? && b'.reader.available > BYTES_TO_STORE_MESSAGE_LENGTH
  {
    CountShowsMessages(b);
  }

  lemma SentAreSendable(b: Shared)
    requires Ok(b)
    ensures forall m :: m in b.sent ==> Sendable(m)
  {
  }

  lemma ReceiveEnds(b: Shared, s: Step, b': Shared, m: Message)
    requires Ok(b) && Follows(b, s, b') && OfReader(s) && b.reader.ReadingData? && b.reader.count == |b.reader.data|
    requires |b.received| < |b.sent| && b.sent[|b.received|] == m
    ensures b'.received == b.received + [m] && b'.reader == NotReceiving
  {
    hide LengthWord, LengthOf, Frames, Window, Count;
    assert s.PublishDataTaken?;
    PublishDataTakenOk(b);
  }

  /** A receive that finds a message is done after a number of its own steps that
      depends on the message alone, whatever the writer does in between: the look, the
      decision, the four bytes of the length word and their publication, the bytes of
      the message and their publication. */
  lemma ReceiveCompletes(states: seq<Shared>, steps: seq<Step>, i: nat, j: nat)
    requires IsRun(states, steps) && i < j < |steps| && steps[i].StartReceive? && OfReader(steps[j])
    requires |states[i].received| < |states[i].sent|
    requires OwnSteps(steps, true, i, j) == BYTES_TO_STORE_MESSAGE_LENGTH + |states[i].sent[|states[i].received|]| + 3
    ensures states[j].received == states[i].received
    ensures states[j + 1].received == states[i].received + [states[i].sent[|states[i].received|]]
    ensures states[j + 1].reader == NotReceiving
  {
    hide Ok, Follows, Initial;
    EveryStateIsOk(states, steps, i);
    EveryStateIsOk(states, steps, j);
    ReceiveAdvances(states, steps, i, j);
    SentAreSendable(states[i]);
    assert Follows(states[j], steps[j], states[j + 1]);
    ReceiveEnds(states[j], steps[j], states[j + 1], states[i].sent[|states[i].received|]);
  }
  /** How far the writer of message m is after n of its own steps. */
  predicate WriterAt(b: Shared, m: Message, n: nat) {
    if n == 1 then
      b.writer.FoundSpace? && b.writer.message == m && b.writer.space >= |m| + BYTES_TO_STORE_MESSAGE_LENGTH
    else if 2 <= n <= BYTES_TO_STORE_MESSAGE_LENGTH + 2 then b.writer == WritingLength(m, n - 2)
    else b.writer.WritingData? && b.writer.message == m && b.writer.copied + BYTES_TO_STORE_MESSAGE_LENGTH + 3 == n
  }

  lemma WriterMoves(b: Shared, s: Step, b': Shared, m: Message, n: nat)
    requires Follows(b, s, b') && !OfReader(s) && WriterAt(b, m, n) && 0 < n < BYTES_TO_STORE_MESSAGE_LENGTH + |m| + 3
    ensures WriterAt(b', m, n + 1) && b'.sent == b.sent
  {
    hide LengthWord, Count, Wrap;
  }

  lemma {:induction false} SendAdvances(states: seq<Shared>, steps: seq<Step>, i: nat, j: nat)
    requires IsRun(states, steps) && i < j < |states| && steps[i].StartSend? && Shaped(states[i])
    requires Count(states[i]) + BYTES_TO_STORE_MESSAGE_LENGTH + |steps[i].message| < |states[i].bytes|
    requires OwnSteps(steps, false, i, j) <= BYTES_TO_STORE_MESSAGE_LENGTH + |steps[i].message| + 3
    ensures states[j].sent == states[i].sent && OwnSteps(steps, false, i, j) > 0
    ensures WriterAt(states[j], steps[i].message, OwnSteps(steps, false, i, j))
  {
    var b, s, b' := states[j - 1], steps[j - 1], states[j];
    assert Follows(b, s, b');
    if j == i + 1 {
      assert OwnSteps(steps, false, i, j) == OwnSteps(steps, false, i, i) + 1;
    } else {
      hide Follows, Initial, Count;
      SendAdvances(states, steps, i, j - 1);
      if OfReader(s) {
        ReaderStepSparesWriter(b, s, b');
      } else {
        WriterMoves(b, s, b', steps[i].message, OwnSteps(steps, false, i, j - 1));
      }
    }
  }

  /** And so is a send that finds the space. */
  lemma SendCompletes(states: seq<Shared>, steps: seq<Step>, i: nat, j: nat)
    requires IsRun(states, steps) && i < j < |steps| && steps[i].StartSend? && !OfReader(steps[j]) && Shaped(states[i])
    requires Count(states[i]) + BYTES_TO_STORE_MESSAGE_LENGTH + |steps[i].message| < |states[i].bytes|
    requires OwnSteps(steps, false, i, j) == BYTES_TO_STORE_MESSAGE_LENGTH + |steps[i].message| + 3
    ensures states[j].sent == states[i].sent
    ensures states[j + 1].sent == states[i].sent + [steps[i].message] && states[j + 1].writer == NotSending
  {
    assert Follows(states[i], steps[i], states[i + 1]);
    SendAdvances(states, steps, i, j);
    assert Follows(states[j], steps[j], states[j + 1]);
    hide LengthWord, Count, Wrap;
  }

  /** Neither side ever waits for the other: in every state of every run, each of them
      can take a step. */
  lemma NeitherSideWaits(states: seq<Shared>, steps: seq<Step>, i: nat, m: Message, reader: bool) returns (s: Step)
    requires IsRun(states, steps) && i < |states| && Sendable(m)
    ensures OfReader(s) == reader && Enabled(states[i], s)
  {
    EveryStateIsOk(states, steps, i);
    var b := states[i];
    if reader {
      s := match b.reader
        case NotReceiving => StartReceive
        case FoundBytes(_) => DecideToReceive
        case ReadingLength(_, word) =>
          if |word| < BYTES_TO_STORE_MESSAGE_LENGTH then CopyLengthOut else PublishLengthTaken
        case ReadingData(count, data) => if |data| < count then CopyDataOut else PublishDataTaken;
    } else {
      s := match b.writer
        case NotSending => StartSend(m)
        case FoundSpace(_, _) => DecideToSend
        case WritingLength(_, copied) => if copied < BYTES_TO_STORE_MESSAGE_LENGTH then CopyLengthIn else PublishLength
        case WritingData(message, copied) => if copied < |message| then CopyDataIn else PublishData;
    }
  }
}

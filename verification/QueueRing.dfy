/** queue.c: the storage area of a queue as a ring of fixed-size items, proved to be
    a bounded double-ended queue. */
module QueueRing {
  import opened Arithmetic
  import opened Wrappers

  type Byte = bv8
  datatype Position = SendToBack | SendToFront | Overwrite

  // ----- what the storage area stands for -----

  /** Where a slot begins. */
  function Offset(slot: nat, size: nat): nat {
    slot * size
  }

  predicate Fits(slot: nat, size: nat, bytes: seq<Byte>) {
    Offset(slot, size) + size <= |bytes|
  }

  function Item(bytes: seq<Byte>, slot: nat, size: nat): (item: seq<Byte>)
    requires Fits(slot, size, bytes)
    ensures |item| == size
  {
    bytes[Offset(slot, size)..Offset(slot, size) + size]
  }

  lemma SlotsFit(slot: nat, length: nat, size: nat)
    requires slot < length
    ensures slot * size + size <= length * size
    ensures length * size - size == (length - 1) * size
    ensures slot > 0 ==> slot * size - size == (slot - 1) * size
    ensures slot * size + size == (slot + 1) * size
  {
    Distributes(slot, 1, size);
    Distributes(length - 1, 1, size);
    Distributes(slot + 1, length - slot - 1, size);
    Distributes(slot - 1, 1, size);
    ProductIsNat(length - slot - 1, size);
  }

  lemma SlotsAreApart(a: nat, b: nat, size: nat)
    requires a < b
    ensures a * size + size <= b * size
  {
    SlotsFit(a, b, size);
  }

  /** An offset reaches the end of the area exactly when its slot index does. */
  lemma OffsetOrder(slot: nat, length: nat, size: nat)
    requires size > 0
    ensures slot * size >= length * size <==> slot >= length
  {
    if slot < length {
      SlotsFit(slot, length, size);
    } else if slot > length {
      SlotsFit(length, slot, size);
    }
  }

  /** The items, from the slot after the one read last. */
  ghost function Items(bytes: seq<Byte>, read: nat, count: nat, length: nat, size: nat): (items: seq<seq<Byte>>)
    requires read < length && count <= length && |bytes| == Offset(length, size)
    ensures |items| == count
    decreases count
  {
    if count == 0 then []
    else
      SlotsFit(Wrap(read + count, length), length, size);
      Items(bytes, read, count - 1, length, size) + [Item(bytes, Wrap(read + count, length), size)]
  }

  lemma {:induction false} ItemsAt(bytes: seq<Byte>, read: nat, count: nat, length: nat, size: nat, i: nat)
    requires read < length && i < count <= length && |bytes| == Offset(length, size)
    ensures Fits(Wrap(read + 1 + i, length), size, bytes)
    ensures Items(bytes, read, count, length, size)[i] == Item(bytes, Wrap(read + 1 + i, length), size)
  {
    SlotsFit(Wrap(read + 1 + i, length), length, size);
    if i < count - 1 {
      ItemsAt(bytes, read, count - 1, length, size, i);
    }
  }

  /** What writing one item into a slot does to the items of all slots. */
  ghost predicate Wrote(bytes: seq<Byte>, bytes': seq<Byte>, slot: nat, size: nat, item: seq<Byte>) {
    && |bytes'| == |bytes| && Fits(slot, size, bytes) && |item| == size
    && bytes' == bytes[..Offset(slot, size)] + item + bytes[Offset(slot, size) + size..]
  }

  lemma WroteItem(bytes: seq<Byte>, bytes': seq<Byte>, slot: nat, size: nat, item: seq<Byte>, s: nat)
    requires Wrote(bytes, bytes', slot, size, item) && Fits(s, size, bytes)
    ensures Item(bytes', s, size) == if s == slot then item else Item(bytes, s, size)
  {
    if s < slot {
      SlotsAreApart(s, slot, size);
    } else if slot < s {
      SlotsAreApart(slot, s, size);
    }
  }

  // ----- the effect of an operation on the items -----

  /** A write into the slot after the last item adds an item at the back. */
  lemma WroteBack(bytes: seq<Byte>, bytes': seq<Byte>, read: nat, count: nat, length: nat, size: nat, item: seq<Byte>)
    requires read < length && count < length && |bytes| == Offset(length, size)
    requires Wrote(bytes, bytes', Wrap(read + 1 + count, length), size, item)
    ensures Items(bytes', read, count + 1, length, size) == Items(bytes, read, count, length, size) + [item]
  {
    var before, after := Items(bytes, read, count, length, size), Items(bytes', read, count + 1, length, size);
    forall i | 0 <= i <= count ensures after[i] == (before + [item])[i] {
      var s := Wrap(read + 1 + i, length);
      ItemsAt(bytes', read, count + 1, length, size, i);
      WroteItem(bytes, bytes', Wrap(read + 1 + count, length), size, item, s);
      if i < count {
        ItemsAt(bytes, read, count, length, size, i);
      }
    }
  }

  function Before(slot: nat, length: nat): (s: nat)
    requires slot < length
    ensures s < length && Wrap(s + 1, length) == slot
  {
    if slot == 0 then length - 1 else slot - 1
  }

  /** A write into the slot read last adds an item at the front, once the read
      position has stepped back. */
  lemma WroteFront(bytes: seq<Byte>, bytes': seq<Byte>, read: nat, count: nat, length: nat, size: nat, item: seq<Byte>)
    requires read < length && count < length && |bytes| == Offset(length, size)
    requires Wrote(bytes, bytes', read, size, item)
    ensures Items(bytes', Before(read, length), count + 1, length, size) ==
            [item] + Items(bytes, read, count, length, size)
  {
    var before := Items(bytes, read, count, length, size);
    var after := Items(bytes', Before(read, length), count + 1, length, size);
    forall i | 0 <= i <= count ensures after[i] == ([item] + before)[i] {
      var s := Wrap(Before(read, length) + 1 + i, length);
      ItemsAt(bytes', Before(read, length), count + 1, length, size, i);
      WroteItem(bytes, bytes', read, size, item, s);
      if i > 0 {
        ItemsAt(bytes, read, count, length, size, i - 1);
      }
    }
  }

  /** The first item is in the slot after the one read last; moving the read position
      there takes the item off the front. */
  lemma ReadFront(bytes: seq<Byte>, read: nat, count: nat, length: nat, size: nat)
    requires read < length && 0 < count <= length && |bytes| == Offset(length, size)
    ensures Fits(Wrap(read + 1, length), size, bytes)
    ensures [Item(bytes, Wrap(read + 1, length), size)] + Items(bytes, Wrap(read + 1, length), count - 1, length, size)
            == Items(bytes, read, count, length, size)
  {
    var next := Wrap(read + 1, length);
    SlotsFit(next, length, size);
    var before, after := Items(bytes, read, count, length, size), Items(bytes, next, count - 1, length, size);
    forall i | 0 <= i < count ensures ([Item(bytes, next, size)] + after)[i] == before[i] {
      ItemsAt(bytes, read, count, length, size, i);
      if i > 0 {
        ItemsAt(bytes, next, count - 1, length, size, i - 1);
      }
    }
  }

  /** The write slot is congruent to the slot after the last item. */
  predicate InStep(read: nat, write: nat, count: nat, length: nat) {
    && read < length && write < length && count <= length
    && (write == read + 1 + count || write + length == read + 1 + count || write + 2 * length == read + 1 + count)
  }

  lemma InStepIsCongruence(read: nat, write: nat, count: nat, length: nat)
    requires read < length && write < length && count <= length
    ensures InStep(read, write, count, length) <==> write == (read + 1 + count) % length
  {
    var q := (read + 1 + count) / length;
    assert read + 1 + count == q * length + (read + 1 + count) % length;
    assert q <= 2 by {
      if q >= 3 {
        ProductIsNat(q - 3, length);
        Distributes(q - 3, 3, length);
        assert false;
      }
    }
  }

  // ----- the queue -----

  class Queue {
    /** The storage area, pcHead; offsets into it stand for pcWriteTo and pcReadFrom. */
    const storage: array<Byte>
    const length: nat
    const itemSize: nat
    var writeTo: int
    var readFrom: int
    var messagesWaiting: nat
    ghost var readSlot: nat
    ghost var writeSlot: nat

    ghost predicate Valid()
      reads this
    {
      && length > 0 && storage.Length == Offset(length, itemSize) && messagesWaiting <= length
      && InStep(readSlot, writeSlot, messagesWaiting, length)
      && readFrom == Offset(readSlot, itemSize) && writeTo == Offset(writeSlot, itemSize)
    }

    ghost function Contents(): (items: seq<seq<Byte>>)
      requires Valid()
      reads this, storage
      ensures |items| == messagesWaiting
    {
      Items(storage[..], readSlot, messagesWaiting, length, itemSize)
    }

    /** xQueueGenericCreate */
    constructor (length: nat, itemSize: nat)
      requires length > 0
      ensures Valid() && fresh(storage) && this.length == length && this.itemSize == itemSize && Contents() == []
    {
      this.length, this.itemSize := length, itemSize;
      ProductIsNat(length, itemSize);
      storage := new Byte[length * itemSize];
      messagesWaiting, writeTo, writeSlot := 0, 0, 0;
      SlotsFit(length - 1, length, itemSize);
      readFrom, readSlot := (length - 1) * itemSize, length - 1;
    }

    /** The positions and the count set by xQueueGenericReset. */
    method Reset()
      requires Valid()
      modifies this
      ensures Valid() && Contents() == []
    {
      messagesWaiting := 0;
      writeTo := 0;
      SlotsFit(length - 1, length, itemSize);
      readFrom := (length - 1) * itemSize;
      readSlot, writeSlot := length - 1, 0;
    }

    /** memcpy of one item into the storage area. */
    method CopyIn(offset: nat, item: seq<Byte>, ghost slot: nat)
      requires offset == Offset(slot, itemSize) && Fits(slot, itemSize, storage[..]) && |item| == itemSize
      modifies storage
      ensures Wrote(old(storage[..]), storage[..], slot, itemSize, item)
    {
      ghost var was := storage[..];
      forall i | 0 <= i < |item| {
        storage[offset + i] := item[i];
      }
      ghost var now := was[..offset] + item + was[offset + itemSize..];
      forall i | 0 <= i < |was| ensures storage[i] == now[i] {
      }
      assert storage[..] == now;
    }

    /** The queueSEND_TO_BACK branch of prvCopyDataToQueue: write, then advance. */
    method CopyToBack(item: seq<Byte>)
      requires Valid() && |item| == itemSize > 0 && messagesWaiting < length
      modifies this, storage
      ensures Valid() && Contents() == old(Contents()) + [item]
    {
      hide Items, Wrote, Offset;
      ghost var was := storage[..];
      Advance(writeSlot, length, itemSize);
      WriteSlotIsNext(readSlot, writeSlot, messagesWaiting, length);
      CopyIn(writeTo, item, writeSlot);
      WroteBack(was, storage[..], readSlot, messagesWaiting, length, itemSize, item);
      AdvanceWritePosition();
      messagesWaiting := messagesWaiting + 1;
    }

    method AdvanceWritePosition()
      requires length > 0 && writeSlot < length && itemSize > 0 && writeTo == Offset(writeSlot, itemSize)
      modifies this`writeTo, this`writeSlot
      ensures writeSlot == Wrap(old(writeSlot) + 1, length) && writeTo == Offset(writeSlot, itemSize)
    {
      Advance(writeSlot, length, itemSize);
      hide Offset;
      writeTo := writeTo + itemSize;
      if writeTo >= length * itemSize {
        writeTo := 0;
      }
      writeSlot := Wrap(writeSlot + 1, length);
    }

    /** The other branch: write into the slot read last, then step back. */
    method CopyToFront(item: seq<Byte>, overwrite: bool)
      requires Valid() && |item| == itemSize > 0
      requires if overwrite then length == 1 else messagesWaiting < length
      modifies this, storage
      ensures Valid() && Contents() == if overwrite then [item] else [item] + old(Contents())
    {
      hide Items, Wrote, Offset;
      ghost var was, read := storage[..], readSlot;
      var count := messagesWaiting;
      if overwrite && count > 0 {
        count := count - 1;
      }
      StepBack(readSlot, length, itemSize);
      CopyIn(readFrom, item, readSlot);
      WroteFront(was, storage[..], read, count, length, itemSize, item);
      StepReadPositionBack();
      messagesWaiting := count + 1;
    }

    method StepReadPositionBack()
      requires length > 0 && readSlot < length && itemSize > 0 && readFrom == Offset(readSlot, itemSize)
      modifies this`readFrom, this`readSlot
      ensures readSlot == Before(old(readSlot), length) && readFrom == Offset(readSlot, itemSize)
    {
      StepBack(readSlot, length, itemSize);
      hide Offset;
      readFrom := readFrom - itemSize;
      if readFrom < 0 {
        readFrom := length * itemSize - itemSize;
      }
      readSlot := Before(readSlot, length);
    }

    /** The first branch, for items without a size: only the count changes, and it
        passes the length if a full queue is overwritten. */
    method CountOneMore(item: seq<Byte>, position: Position)
      requires Valid() && item == [] && itemSize == 0
      requires if position.Overwrite? then length == 1 else messagesWaiting < length
      modifies this`messagesWaiting, this`writeSlot
      ensures messagesWaiting == old(messagesWaiting) + 1
      ensures Valid() <==> old(messagesWaiting) < length
      ensures Valid() && position == SendToBack ==> Contents() == old(Contents()) + [item]
      ensures Valid() && position == SendToFront ==> Contents() == [item] + old(Contents())
      ensures Valid() && position == Overwrite ==> Contents() == [item]
    {
      EmptyItems(storage[..], readSlot, messagesWaiting, length);
      if messagesWaiting < length {
        EmptyItems(storage[..], readSlot, messagesWaiting + 1, length);
      }
      messagesWaiting := messagesWaiting + 1;
      writeSlot := Wrap(writeSlot + 1, length);
      assert Valid() ==> Contents() == old(Contents()) + [item] == [item] + old(Contents());
    }

    /** prvCopyDataToQueue for anything but a mutex.  The queue stays within its
        length, and then holds what the position says, except in one case: a full queue
        whose items have no size, such as a binary semaphore that has been given, counts
        one more than its length when it is overwritten. */
    method CopyDataToQueue(item: seq<Byte>, position: Position)
      requires Valid() && |item| == itemSize
      requires if position.Overwrite? then length == 1 else messagesWaiting < length
      modifies this, storage
      ensures Valid() <==> itemSize > 0 || old(messagesWaiting) < length
      ensures Valid() && position == SendToBack ==> Contents() == old(Contents()) + [item]
      ensures Valid() && position == SendToFront ==> Contents() == [item] + old(Contents())
      ensures Valid() && position == Overwrite ==> Contents() == [item]
      ensures !Valid() ==> messagesWaiting == length + 1 == 2
    {
      if itemSize == 0 {
        CountOneMore(item, position);
      } else if position.SendToBack? {
        CopyToBack(item);
      } else {
        CopyToFront(item, position.Overwrite?);
      }
    }

    /** prvCopyDataFromQueue: advance, then read. */
    method CopyDataFromQueue() returns (item: seq<Byte>)
      requires Valid() && messagesWaiting > 0
      modifies this`readFrom, this`readSlot
      ensures readSlot == Wrap(old(readSlot) + 1, length) && readFrom == Offset(readSlot, itemSize)
      ensures item == old(Contents())[0]
      ensures [item] + Items(storage[..], readSlot, messagesWaiting - 1, length, itemSize) == old(Contents())
    {
      hide Items, Offset;
      NoOffset(readSlot, itemSize);
      NoOffset(Wrap(readSlot + 1, length), itemSize);
      ReadFront(storage[..], readSlot, messagesWaiting, length, itemSize);
      if itemSize != 0 {
        Advance(readSlot, length, itemSize);
        readFrom := readFrom + itemSize;
        if readFrom >= length * itemSize {
          readFrom := 0;
        }
      }
      readSlot := Wrap(readSlot + 1, length);
      item := if itemSize != 0 then storage[readFrom..readFrom + itemSize] else [];
      assert item == Item(storage[..], readSlot, itemSize);
    }

    /** The part of xQueueGenericSend that does not wait. */
    method Send(item: seq<Byte>, position: Position) returns (sent: bool)
      requires Valid() && |item| == itemSize
      requires position.Overwrite? ==> length == 1
      modifies this, storage
      ensures sent <==> |old(Contents())| < length || position.Overwrite?
      ensures Valid() <==> !position.Overwrite? || itemSize > 0 || old(Contents()) == []
      ensures Valid() && sent && position == SendToBack ==> Contents() == old(Contents()) + [item]
      ensures Valid() && sent && position == SendToFront ==> Contents() == [item] + old(Contents())
      ensures Valid() && sent && position == Overwrite ==> Contents() == [item]
      ensures !sent ==> Valid() && Contents() == old(Contents()) && |Contents()| == length
      ensures !Valid() ==> messagesWaiting == 2
    {
      sent := messagesWaiting < length || position.Overwrite?;
      if sent {
        CopyDataToQueue(item, position);
      }
    }

    /** The part of xQueueReceive that does not wait. */
    method Receive() returns (item: Option<seq<Byte>>)
      requires Valid()
      modifies this
      ensures Valid()
      ensures item == if old(Contents()) == [] then None else Some(old(Contents())[0])
      ensures Contents() == if old(Contents()) == [] then [] else old(Contents())[1..]
    {
      item := None;
      if messagesWaiting > 0 {
        var first := CopyDataFromQueue();
        messagesWaiting := messagesWaiting - 1;
        assert ([first] + Contents())[1..] == Contents();
        item := Some(first);
      }
    }

    /** The part of xQueuePeek that does not wait: the read position is put back. */
    method Peek() returns (item: Option<seq<Byte>>)
      requires Valid()
      modifies this
      ensures Valid() && Contents() == old(Contents())
      ensures item == if Contents() == [] then None else Some(Contents()[0])
    {
      item := None;
      if messagesWaiting > 0 {
        var originalReadPosition := readFrom;
        ghost var originalSlot := readSlot;
        var first := CopyDataFromQueue();
        readFrom, readSlot := originalReadPosition, originalSlot;
        item := Some(first);
      }
    }
  }

  lemma WriteSlotIsNext(read: nat, write: nat, count: nat, length: nat)
    requires InStep(read, write, count, length) && count < length
    ensures write == Wrap(read + 1 + count, length)
  {
  }

  /** Offsets advance and step back as the slots do. */
  lemma Advance(slot: nat, length: nat, size: nat)
    requires slot < length && size > 0
    ensures Offset(slot, size) + size <= Offset(length, size) == length * size
    ensures var next := Offset(slot, size) + size;
            Offset(Wrap(slot + 1, length), size) == if next >= Offset(length, size) then 0 else next
  {
    SlotsFit(slot, length, size);
    OffsetOrder(slot + 1, length, size);
  }

  lemma NoOffset(slot: nat, size: nat)
    ensures size == 0 ==> Offset(slot, size) == 0
  {
  }

  lemma StepBack(slot: nat, length: nat, size: nat)
    requires slot < length && size > 0
    ensures Offset(slot, size) + size <= Offset(length, size) == length * size
    ensures var previous := Offset(slot, size) - size;
            Offset(Before(slot, length), size) == if previous < 0 then Offset(length, size) - size else previous
  {
    SlotsFit(slot, length, size);
    if slot > 0 {
      ProductIsNat(slot - 1, size);
    }
  }

  lemma {:induction false} EmptyItems(bytes: seq<Byte>, read: nat, count: nat, length: nat)
    requires read < length && count <= length && |bytes| == 0
    ensures forall i :: 0 <= i < count ==> Items(bytes, read, count, length, 0)[i] == []
  {
    if count > 0 {
      EmptyItems(bytes, read, count - 1, length);
    }
  }

  // ----- whole runs -----

  datatype Operation = SendOf(item: seq<Byte>) | ReceiveOf

  /** What a bounded list does with a series of sends to the back and receives: the
      items accepted, those received, and those left. */
  function Performed(items: seq<seq<Byte>>, length: nat, ops: seq<Operation>)
    : (r: (seq<seq<Byte>>, seq<seq<Byte>>, seq<seq<Byte>>))
  {
    if ops == [] then ([], [], items)
    else
      var before := Performed(items, length, ops[..|ops|-1]);
      match ops[|ops|-1]
      case SendOf(item) =>
        if |before.2| < length then (before.0 + [item], before.1, before.2 + [item]) else before
      case ReceiveOf =>
        if before.2 == [] then before else (before.0, before.1 + [before.2[0]], before.2[1..])
  }

  lemma {:induction false} FirstInFirstOut(items: seq<seq<Byte>>, length: nat, ops: seq<Operation>)
    requires |items| <= length
    ensures var r := Performed(items, length, ops);
            r.1 + r.2 == items + r.0 && |r.2| <= length
  {
    if ops != [] {
      FirstInFirstOut(items, length, ops[..|ops|-1]);
      var before := Performed(items, length, ops[..|ops|-1]);
      match ops[|ops|-1]
      case SendOf(item) =>
        assert before.1 + (before.2 + [item]) == (before.1 + before.2) + [item];
        assert items + (before.0 + [item]) == (items + before.0) + [item];
      case ReceiveOf =>
        if before.2 != [] {
          assert before.1 + [before.2[0]] + before.2[1..] == before.1 + before.2;
        }
    }
  }

  /** First in, first out, through the bytes of the ring: over any series of sends and
      receives on a queue, what has been received, followed by what is left, is what
      was there at first, followed by what has been accepted.  A send is accepted
      exactly when the queue is not full at that moment. */
  method Perform(q: Queue, ops: seq<Operation>) returns (accepted: seq<seq<Byte>>, received: seq<seq<Byte>>)
    requires q.Valid() && forall i :: 0 <= i < |ops| && ops[i].SendOf? ==> |ops[i].item| == q.itemSize
    modifies q, q.storage
    ensures q.Valid() && received + q.Contents() == old(q.Contents()) + accepted
    ensures (accepted, received, q.Contents()) == Performed(old(q.Contents()), q.length, ops)
  {
    ghost var items := q.Contents();
    accepted, received := [], [];
    for i := 0 to |ops|
      invariant q.Valid() && (accepted, received, q.Contents()) == Performed(items, q.length, ops[..i])
    {
      assert ops[..i+1][..i] == ops[..i];
      match ops[i]
      case SendOf(item) =>
        var sent := q.Send(item, SendToBack);
        accepted := if sent then accepted + [item] else accepted;
      case ReceiveOf =>
        var item := q.Receive();
        received := if item.Some? then received + [item.value] else received;
    }
    assert ops[..|ops|] == ops;
    FirstInFirstOut(items, q.length, ops);
  }

  /** Overwriting a binary semaphore that has been given lets it count 2. */
  method OverwrittenSemaphore() returns (q: Queue)
    ensures fresh(q) && q.length == 1 && q.messagesWaiting == 2
  {
    q := new Queue(1, 0);
    var given := q.Send([], SendToBack);
    var overwritten := q.Send([], Overwrite);
  }
}

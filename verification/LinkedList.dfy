/** list.c: the intrusive circular list on the heap, proved to implement the
    operations of RoundRobin on the sequence of its items. */
module LinkedList {
  import opened RoundRobin

  class ListItem {
    var value: nat
    var next: ListItem?
    var previous: ListItem?
    var owner: nat
    var container: List?

    /** vListInitialiseItem */
    constructor (value: nat, owner: nat)
      ensures this.value == value && this.owner == owner && container == null
    {
      this.value, this.owner := value, owner;
      next, previous, container := null, null, null;
    }
  }

  /** The link out of position k: to the next node, and back. */
  ghost predicate LinkedAt(nodes: seq<ListItem>, k: nat)
    requires k < |nodes|
    reads nodes
  {
    var following := if k + 1 < |nodes| then nodes[k+1] else nodes[0];
    nodes[k].next == following && following.previous == nodes[k]
  }

  /** Every node is linked to the one after it, and the last to the first. */
  ghost predicate Circular(nodes: seq<ListItem>)
    reads nodes
  {
    forall k :: 0 <= k < |nodes| ==> LinkedAt(nodes, k)
  }

  /** Linking item after position pos closes the circle again. */
  lemma CircleWithItem(nodes: seq<ListItem>, item: ListItem, pos: nat)
    requires pos < |nodes|
    requires forall k :: 0 <= k < |nodes| && k != pos ==> LinkedAt(nodes, k)
    requires item.next == if pos + 1 < |nodes| then nodes[pos+1] else nodes[0]
    requires item.next.previous == item && item.previous == nodes[pos] && nodes[pos].next == item
    ensures Circular(nodes[..pos+1] + [item] + nodes[pos+1..])
  {
    var n := nodes[..pos+1] + [item] + nodes[pos+1..];
    forall k | 0 <= k < |n| ensures LinkedAt(n, k) {
      if k > pos + 1 {
        assert LinkedAt(nodes, k - 1);
      } else if k < pos {
        assert LinkedAt(nodes, k);
      }
    }
  }

  /** Unlinking the node after position j closes the circle again. */
  lemma CircleWithout(nodes: seq<ListItem>, j: nat)
    requires j + 1 < |nodes|
    requires forall k :: 0 <= k < |nodes| && k != j && k != j + 1 ==> LinkedAt(nodes, k)
    requires nodes[j].next == if j + 2 < |nodes| then nodes[j+2] else nodes[0]
    requires nodes[j].next.previous == nodes[j]
    ensures Circular(nodes[..j+1] + nodes[j+2..])
  {
    var n := nodes[..j+1] + nodes[j+2..];
    forall k | 0 <= k < |n| ensures LinkedAt(n, k) {
      if k < j {
        assert LinkedAt(nodes, k);
      } else if k > j {
        assert LinkedAt(nodes, k + 1);
      }
    }
  }

  /** The same insertion and removal on a marker followed by the items. */
  lemma MarkedInsert<T>(nodes: seq<T>, at: nat, item: T, pos: nat)
    requires Distinct(nodes) && at < |nodes| && pos < |nodes| && item !in nodes
    ensures var n := nodes[..pos+1] + [item] + nodes[pos+1..];
            var r := InsertAt(Ring(nodes[1..], at), item, pos);
            Distinct(n) && n[0] == nodes[0] && n[1..] == r.items && n[r.index] == nodes[at]
  {
    var n := nodes[..pos+1] + [item] + nodes[pos+1..];
    forall i, j | 0 <= i < j < |n| ensures n[i] != n[j] {
      assert n[i] == if i <= pos then nodes[i] else if i == pos + 1 then item else nodes[i-1];
      assert n[j] == if j <= pos then nodes[j] else if j == pos + 1 then item else nodes[j-1];
    }
  }

  lemma MarkedRemove<T>(nodes: seq<T>, at: nat, j: nat)
    requires Distinct(nodes) && at < |nodes| && j + 1 < |nodes|
    ensures var n := nodes[..j+1] + nodes[j+2..];
            var r := RemoveAt(Ring(nodes[1..], at), j);
            Distinct(n) && n[0] == nodes[0] && n[1..] == r.items
            && n[r.index] == if at == j + 1 then nodes[j] else nodes[at]
  {
    var n := nodes[..j+1] + nodes[j+2..];
    forall i, k | 0 <= i < k < |n| ensures n[i] != n[k] {
      assert n[i] == if i <= j then nodes[i] else nodes[i+1];
      assert n[k] == if k <= j then nodes[k] else nodes[k+1];
    }
  }

  class List {
    const end: ListItem
    const maxDelay: nat
    var index: ListItem
    var numberOfItems: nat
    ghost var nodes: seq<ListItem>  // the end marker, then the items in order
    ghost var at: nat               // which node the index points at

    ghost predicate Valid()
      reads this, nodes
    {
      && nodes != [] && nodes[0] == end
      && Distinct(nodes)
      && Circular(nodes)
      && at < |nodes| && index == nodes[at]
      && numberOfItems == |nodes| - 1
      && end.value == maxDelay && end.container == null
      && (forall k :: 1 <= k < |nodes| ==> nodes[k].container == this)
    }

    /** The value of the list. */
    ghost function Contents(): Ring<ListItem>
      requires nodes != []
      reads this
    {
      Ring(nodes[1..], at)
    }

    ghost function Keys(): seq<nat>
      requires nodes != []
      reads this, nodes
    {
      seq(|nodes| - 1, k requires 0 <= k < |nodes| - 1 reads this, nodes => nodes[k+1].value)
    }

    /** vListInitialise */
    constructor (maxDelay: nat)
      ensures Valid() && Contents() == Ring([], 0) && this.maxDelay == maxDelay
      ensures fresh(end)
    {
      var marker := new ListItem(maxDelay, 0);
      this.maxDelay := maxDelay;
      end, index, numberOfItems := marker, marker, 0;
      nodes, at := [marker], 0;
      new;
      end.next, end.previous := end, end;
    }

    /** Valid, but for the links, the containers and the count of the nodes. */
    ghost predicate Shaped()
      reads this, nodes
    {
      && nodes != [] && nodes[0] == end
      && Distinct(nodes)
      && at < |nodes| && index == nodes[at]
      && end.value == maxDelay && end.container == null
    }

    /** Files an item that has been linked in after position pos. */
    ghost method Admit(item: ListItem, pos: nat)
      requires Shaped() && pos < |nodes| && item !in nodes
      requires numberOfItems == |nodes|
      requires item.container == this && forall k :: 1 <= k < |nodes| ==> nodes[k].container == this
      requires forall k :: 0 <= k < |nodes| && k != pos ==> LinkedAt(nodes, k)
      requires item.next == if pos + 1 < |nodes| then nodes[pos+1] else nodes[0]
      requires item.next.previous == item && item.previous == nodes[pos] && nodes[pos].next == item
      modifies this`nodes, this`at
      ensures Valid() && Contents() == InsertAt(old(Contents()), item, pos)
    {
      CircleWithItem(nodes, item, pos);
      MarkedInsert(nodes, at, item, pos);
      ghost var ring := InsertAt(Contents(), item, pos);
      nodes, at := nodes[..pos+1] + [item] + nodes[pos+1..], ring.index;
    }

    /** vListInsertEnd */
    method InsertEnd(item: ListItem)
      requires Valid() && item.container == null && item !in nodes
      modifies this`numberOfItems, this`nodes, this`at, item`next, item`previous, item`container, nodes`next
      modifies nodes`previous
      ensures Valid() && Contents() == RoundRobin.InsertEnd(old(Contents()), item)
    {
      ghost var pos := EndPosition(Contents());
      assert LinkedAt(nodes, pos);

      item.next := index;
      item.previous := index.previous;
      index.previous.next := item;
      index.previous := item;
      item.container := this;
      numberOfItems := numberOfItems + 1;

      forall k | 0 <= k < |nodes| && k != pos ensures LinkedAt(nodes, k) {
        assert old(LinkedAt(nodes, k));
      }
      Admit(item, pos);
    }

    /** vListInsert */
    method Insert(item: ListItem)
      requires Valid() && item.container == null && item !in nodes
      requires item.value <= maxDelay && forall k :: 0 <= k < |nodes| ==> nodes[k].value <= maxDelay
      modifies this`numberOfItems, this`nodes, this`at, item`next, item`previous, item`container, nodes`next
      modifies nodes`previous
      ensures Valid() && Contents() == InsertAt(old(Contents()), item, InsertPosition(old(Keys()), item.value))
      ensures var pos := InsertPosition(old(Keys()), item.value);
              Keys() == old(Keys())[..pos] + [item.value] + old(Keys())[pos..]
      ensures old(Ascending(Keys())) ==> Ascending(Keys())
    {
      ghost var pos, keys, items := InsertPosition(Keys(), item.value), Keys(), Contents().items;
      KeysAreValues();
      var cursor := PlaceFor(item.value);
      LinkAfter(cursor, item, pos);
      hide Valid;
      KeysSpliced(item, pos, items, keys);
    }

    /** The choice that vListInsert makes: a key as large as the end marker's goes last
        without a scan. */
    method PlaceFor(key: nat) returns (cursor: ListItem)
      requires Valid() && key <= maxDelay && forall k :: 0 <= k < |nodes| ==> nodes[k].value <= maxDelay
      ensures cursor == nodes[InsertPosition(Keys(), key)]
    {
      if key == maxDelay {
        assert LinkedAt(nodes, |nodes| - 1);
        cursor := end.previous;
      } else {
        cursor := ScanFor(key);
      }
    }

    lemma KeysAreValues()
      requires nodes != []
      ensures |Keys()| == |Contents().items|
      ensures forall k :: 0 <= k < |Contents().items| ==> Contents().items[k].value == Keys()[k]
    {
    }

    lemma KeysSpliced(item: ListItem, pos: nat, items: seq<ListItem>, keys: seq<nat>)
      requires nodes != [] && pos <= |items| == |keys| && nodes[1..] == items[..pos] + [item] + items[pos..]
      requires forall k :: 0 <= k < |items| ==> items[k].value == keys[k]
      ensures Keys() == keys[..pos] + [item.value] + keys[pos..]
      ensures Ascending(keys) && pos == InsertPosition(keys, item.value) ==> Ascending(Keys())
    {
      forall k | 0 <= k < |Keys()| ensures Keys()[k] == (keys[..pos] + [item.value] + keys[pos..])[k] {
        assert nodes[k + 1] == nodes[1..][k];
      }
      if Ascending(keys) && pos == InsertPosition(keys, item.value) {
        InsertKeepsAscending(keys, item.value);
      }
    }

    /** The linking step of vListInsert. */
    method LinkAfter(cursor: ListItem, item: ListItem, ghost pos: nat)
      requires Valid() && item.container == null && item !in nodes
      requires pos < |nodes| && cursor == nodes[pos]
      modifies this`numberOfItems, this`nodes, this`at, item`next, item`previous, item`container, nodes`next
      modifies nodes`previous
      ensures Valid() && Contents() == InsertAt(old(Contents()), item, pos)
    {
      assert LinkedAt(nodes, pos);
      item.next := cursor.next;
      item.next.previous := item;
      item.previous := cursor;
      cursor.next := item;
      item.container := this;
      numberOfItems := numberOfItems + 1;

      forall k | 0 <= k < |nodes| && k != pos ensures LinkedAt(nodes, k) {
        assert old(LinkedAt(nodes, k));
      }
      Admit(item, pos);
    }

    /** The scan of vListInsert.  It ends because the end marker holds the
        largest key. */
    method ScanFor(key: nat) returns (cursor: ListItem)
      requires Valid() && key < maxDelay
      ensures cursor == nodes[InsertPosition(Keys(), key)]
    {
      cursor := end;
      ghost var k := 0;
      assert LinkedAt(nodes, 0);
      while cursor.next.value <= key
        invariant k < |nodes| && cursor == nodes[k] && LinkedAt(nodes, k)
        invariant k <= InsertPosition(Keys(), key)
        decreases |nodes| - k
      {
        cursor := cursor.next;
        k := k + 1;
        assert nodes[k].value == Keys()[k-1];
        assert LinkedAt(nodes, k);
      }
      if k < |Keys()| {
        assert nodes[k+1].value == Keys()[k];
      }
    }

    /** Strikes off an item that has been linked out from after position j. */
    ghost method Dismiss(j: nat)
      requires nodes != [] && nodes[0] == end && Distinct(nodes) && j + 1 < |nodes|
      requires end.value == maxDelay && end.container == null
      requires at < |nodes| && index == if at == j + 1 then nodes[j] else nodes[at]
      requires numberOfItems == |nodes| - 2
      requires forall k :: 1 <= k < |nodes| && k != j + 1 ==> nodes[k].container == this
      requires forall k :: 0 <= k < |nodes| && k != j && k != j + 1 ==> LinkedAt(nodes, k)
      requires nodes[j].next == if j + 2 < |nodes| then nodes[j+2] else nodes[0]
      requires nodes[j].next.previous == nodes[j]
      modifies this`nodes, this`at
      ensures Valid() && Contents() == RemoveAt(old(Contents()), j)
    {
      CircleWithout(nodes, j);
      MarkedRemove(nodes, at, j);
      ghost var ring := RemoveAt(Contents(), j);
      nodes, at := nodes[..j+1] + nodes[j+2..], ring.index;
    }

    /** The unlinking step of uxListRemove. */
    static method Unlink(item: ListItem, ghost nodes: seq<ListItem>, ghost j: nat)
      requires Distinct(nodes) && Circular(nodes)
      requires j + 1 < |nodes| && item == nodes[j+1]
      modifies nodes`next, nodes`previous
      ensures forall k :: 0 <= k < |nodes| && k != j && k != j + 1 ==> LinkedAt(nodes, k)
      ensures nodes[j].next == if j + 2 < |nodes| then nodes[j+2] else nodes[0]
      ensures nodes[j].next.previous == nodes[j]
      ensures item.previous == nodes[j]
    {
      assert LinkedAt(nodes, j) && LinkedAt(nodes, j + 1);
      item.next.previous := item.previous;
      item.previous.next := item.next;
      forall k | 0 <= k < |nodes| && k != j && k != j + 1 ensures LinkedAt(nodes, k) {
        assert old(LinkedAt(nodes, k));
      }
    }

    /** uxListRemove */
    method Remove(item: ListItem) returns (remaining: nat)
      requires Valid() && item in Contents().items
      modifies this`index, this`numberOfItems, this`nodes, this`at, item`container, nodes`next, nodes`previous
      ensures Valid() && item.container == null && remaining == numberOfItems
      ensures Contents() == RemoveAt(old(Contents()), IndexOf(old(Contents()).items, item))
    {
      ghost var j := IndexOf(Contents().items, item);
      Unlink(item, nodes, j);
      label unlinked:
      if index == item {
        index := item.previous;
      }
      item.container := null;
      numberOfItems := numberOfItems - 1;
      forall k | 0 <= k < |nodes| && k != j && k != j + 1 ensures LinkedAt(nodes, k) {
        assert old@unlinked(LinkedAt(nodes, k));
      }
      Dismiss(j);
      remaining := numberOfItems;
    }

    /** listGET_OWNER_OF_NEXT_ENTRY */
    method NextOwner() returns (owner: nat)
      requires Valid() && numberOfItems > 0
      modifies this`index, this`at
      ensures Valid() && Contents() == Next(old(Contents()))
      ensures owner == Selected(Contents()).owner
    {
      assert LinkedAt(nodes, at) && LinkedAt(nodes, 0);
      index := index.next;
      at := if at + 1 < |nodes| then at + 1 else 0;
      if index == end {
        index := index.next;
        at := 1;
      }
      owner := index.owner;
    }

    /** listGET_HEAD_ENTRY */
    method Head() returns (item: ListItem)
      requires Valid() && numberOfItems > 0
      ensures item == Contents().items[0]
    {
      assert LinkedAt(nodes, 0);
      item := end.next;
    }
  }

  /** An item is in at most one list. */
  lemma ListsAreDisjoint(l: List, m: List)
    requires l.Valid() && m.Valid() && l != m && l.end != m.end
    ensures forall x :: x in l.nodes ==> x !in m.nodes
    ensures forall k :: 0 <= k < |m.nodes| ==> m.nodes[k] !in l.nodes
  {
    assert forall i :: 1 <= i < |l.nodes| ==> l.nodes[i].container == l;
  }

  /** An item that is in no list is not in this one. */
  lemma UnlistedIsOutside(m: List, item: ListItem)
    requires m.Valid() && item.container == null && item != m.end
    ensures item !in m.nodes && forall k :: 0 <= k < |m.nodes| ==> m.nodes[k] != item
  {
    assert forall i :: 1 <= i < |m.nodes| ==> m.nodes[i].container == m;
  }

  twostate lemma SameList(m: List)
    requires old(m.Valid()) && unchanged(m)
    requires forall k :: 0 <= k < |m.nodes| ==> var x := m.nodes[k];
               && x.value == old(x.value) && x.next == old(x.next)
               && x.previous == old(x.previous) && x.container == old(x.container)
    ensures m.Valid() && m.Contents() == old(m.Contents())
  {
    forall k | 0 <= k < |m.nodes| ensures LinkedAt(m.nodes, k) {
      assert old(LinkedAt(m.nodes, k));
    }
  }

  /** vListInsertEnd on one list leaves every other list as it was. */
  method InsertEndBeside(l: List, item: ListItem, m: List)
    requires l.Valid() && item.container == null && item !in l.nodes
    requires m.Valid() && l != m && l.end != m.end && item != m.end
    modifies l, item`next, item`previous, item`container, l.nodes`next, l.nodes`previous
    ensures l.Valid() && l.Contents() == RoundRobin.InsertEnd(old(l.Contents()), item)
    ensures m.Valid() && m.Contents() == old(m.Contents())
  {
    hide List.Valid, Ascending;
    ListsAreDisjoint(l, m);
    UnlistedIsOutside(m, item);
    l.InsertEnd(item);
    SameList(m);
  }

  /** vListInsert on one list leaves every other list as it was. */
  method InsertBeside(l: List, item: ListItem, m: List)
    requires l.Valid() && item.container == null && item !in l.nodes
    requires item.value <= l.maxDelay && forall k :: 0 <= k < |l.nodes| ==> l.nodes[k].value <= l.maxDelay
    requires m.Valid() && l != m && l.end != m.end && item != m.end
    modifies l, item`next, item`previous, item`container, l.nodes`next, l.nodes`previous
    ensures l.Valid()
    ensures l.Contents() == InsertAt(old(l.Contents()), item, InsertPosition(old(l.Keys()), item.value))
    ensures m.Valid() && m.Contents() == old(m.Contents())
  {
    hide List.Valid, Ascending;
    ListsAreDisjoint(l, m);
    UnlistedIsOutside(m, item);
    l.Insert(item);
    SameList(m);
  }

  /** uxListRemove on one list leaves every other list as it was. */
  method RemoveBeside(l: List, item: ListItem, m: List) returns (remaining: nat)
    requires l.Valid() && item in l.Contents().items
    requires m.Valid() && l != m && l.end != m.end
    modifies l, item`container, l.nodes`next, l.nodes`previous
    ensures l.Valid() && item.container == null && remaining == l.numberOfItems
    ensures l.Contents() == RemoveAt(old(l.Contents()), IndexOf(old(l.Contents()).items, item))
    ensures m.Valid() && m.Contents() == old(m.Contents())
  {
    hide List.Valid, Ascending;
    ListsAreDisjoint(l, m);
    remaining := l.Remove(item);
    SameList(m);
  }
}

/** The kernel's lists as one pool: which list each item is in, and the ring of
    items each list holds.  uxListRemove, vListInsert and vListInsertEnd act on
    the pool as LinkedList proves they act on a single list. */
module KernelLists {
  import opened RoundRobin

  type Task = nat

  datatype ListId =
    | Ready(priority: nat)
    | Delayed1
    | Delayed2
    | Suspended
    | Termination
    | PendingReady
    | EventList(id: nat)

  /** The two list items inside a task control block. */
  datatype Item = StateItem(task: Task) | EventItem(task: Task)

  type Lists = map<ListId, Ring<Item>>
  type Containers = map<Item, ListId>

  function ListOf(lists: Lists, l: ListId): Ring<Item> {
    if l in lists then lists[l] else Ring([], 0)
  }

  function ValueOf(values: map<Item, nat>, x: Item): nat {
    if x in values then values[x] else 0
  }

  function KeysOf(items: seq<Item>, values: map<Item, nat>): (keys: seq<nat>)
    ensures |keys| == |items|
    ensures forall i :: 0 <= i < |keys| ==> keys[i] == ValueOf(values, items[i])
  {
    seq(|items|, i requires 0 <= i < |items| => ValueOf(values, items[i]))
  }

  /** The top bit of an item value, taskEVENT_LIST_ITEM_VALUE_IN_USE, says that the
      value is not a priority but serves an event group. */
  predicate InUse(value: nat, modulus: nat) {
    2 * value >= modulus
  }

  /** A value of the tick type with that bit set. */
  function MarkedInUse(value: nat, modulus: nat): (r: nat)
    requires value < modulus
    ensures modulus % 2 == 0 ==> InUse(r, modulus) && r < modulus && r % (modulus / 2) == value % (modulus / 2)
  {
    if InUse(value, modulus) then value else value + modulus / 2
  }

  ghost predicate SameEventValues(values: map<Item, nat>, others: map<Item, nat>) {
    forall t :: ValueOf(values, EventItem(t)) == ValueOf(others, EventItem(t))
  }

  /** The ring after uxListRemove, vListInsertEnd and vListInsert of an item. */
  function Without(r: Ring<Item>, x: Item): Ring<Item>
    requires x in r.items
  {
    RemoveAt(r, IndexOf(r.items, x))
  }

  function WithLast(r: Ring<Item>, x: Item): Ring<Item>
    requires r.index <= |r.items|
  {
    InsertEnd(r, x)
  }

  function WithSorted(r: Ring<Item>, x: Item, values: map<Item, nat>): Ring<Item> {
    InsertAt(r, x, InsertPosition(KeysOf(r.items, values), ValueOf(values, x)))
  }

  /** Sorted entry is behind every item whose value is not larger, and before the first
      whose value is. */
  lemma SortedPlace(r: Ring<Item>, x: Item, values: map<Item, nat>) returns (pos: nat)
    ensures pos <= |r.items| && WithSorted(r, x, values).items == r.items[..pos] + [x] + r.items[pos..]
    ensures forall y :: y in r.items[..pos] ==> ValueOf(values, y) <= ValueOf(values, x)
    ensures pos < |r.items| ==> ValueOf(values, x) < ValueOf(values, r.items[pos])
  {
    pos := InsertPosition(KeysOf(r.items, values), ValueOf(values, x));
  }

  /** Every list is a ring without repetition, and holds exactly the items whose
      container it is. */
  ghost predicate Linked(lists: Lists, container: Containers) {
    && (forall l :: RoundRobin.Valid(ListOf(lists, l)))
    && (forall l, x :: x in ListOf(lists, l).items <==> x in container && container[x] == l)
  }

  ghost predicate SortedList(items: seq<Item>, values: map<Item, nat>) {
    Ascending(KeysOf(items, values))
  }

  /** The lists are linked, and the two delayed lists are in order of time. */
  ghost predicate Sound(lists: Lists, container: Containers, values: map<Item, nat>) {
    && Linked(lists, container)
    && SortedList(ListOf(lists, Delayed1).items, values)
    && SortedList(ListOf(lists, Delayed2).items, values)
  }

  ghost predicate SameEventLists(lists: Lists, others: Lists) {
    forall q :: ListOf(lists, EventList(q)) == ListOf(others, EventList(q))
  }

  /** The event lists are the same, but for list q, from which x has been taken. */
  ghost predicate OnlyTaken(lists: Lists, others: Lists, q: ListId, x: Item)
    requires x in ListOf(others, q).items
  {
    && ListOf(lists, q) == Without(ListOf(others, q), x)
    && forall p :: EventList(p) != q ==> ListOf(lists, EventList(p)) == ListOf(others, EventList(p))
  }

  lemma StillOnlyTaken(lists: Lists, taken: Lists, others: Lists, q: nat, x: Item)
    requires x in ListOf(others, EventList(q)).items
    requires OnlyTaken(taken, others, EventList(q), x) && SameEventLists(lists, taken)
    ensures OnlyTaken(lists, others, EventList(q), x)
  {
  }

  lemma PutKeepsLinked(lists: Lists, container: Containers, l: ListId, x: Item, pos: nat)
    requires Linked(lists, container) && x !in container && pos <= |ListOf(lists, l).items|
    ensures Linked(lists[l := InsertAt(ListOf(lists, l), x, pos)], container[x := l])
  {
    assert x !in ListOf(lists, l).items;
    InsertAtMembers(ListOf(lists, l), x, pos);
    var lists', container' := lists[l := InsertAt(ListOf(lists, l), x, pos)], container[x := l];
    forall m ensures RoundRobin.Valid(ListOf(lists', m)) {
      assert m != l ==> ListOf(lists', m) == ListOf(lists, m);
    }
    forall m, y ensures y in ListOf(lists', m).items <==> y in container' && container'[y] == m {
      assert y in ListOf(lists, m).items <==> y in container && container[y] == m;
    }
  }

  lemma TakeKeepsLinked(lists: Lists, container: Containers, l: ListId, j: nat)
    requires Linked(lists, container) && j < |ListOf(lists, l).items|
    ensures Linked(lists[l := RemoveAt(ListOf(lists, l), j)], container - {ListOf(lists, l).items[j]})
  {
    var x := ListOf(lists, l).items[j];
    RemoveAtMembers(ListOf(lists, l), j);
    var lists', container' := lists[l := RemoveAt(ListOf(lists, l), j)], container - {x};
    forall m ensures RoundRobin.Valid(ListOf(lists', m)) {
      assert m != l ==> ListOf(lists', m) == ListOf(lists, m);
    }
    assert x in container && container[x] == l;
    forall m, y ensures y in ListOf(lists', m).items <==> y in container' && container'[y] == m {
      assert y in ListOf(lists, m).items <==> y in container && container[y] == m;
    }
  }

  lemma PutKeepsSorted(items: seq<Item>, values: map<Item, nat>, x: Item)
    requires SortedList(items, values)
    ensures var pos := InsertPosition(KeysOf(items, values), ValueOf(values, x));
            SortedList(items[..pos] + [x] + items[pos..], values)
  {
    var keys, key := KeysOf(items, values), ValueOf(values, x);
    var pos := InsertPosition(keys, key);
    InsertKeepsAscending(keys, key);
    assert KeysOf(items[..pos] + [x] + items[pos..], values) == keys[..pos] + [key] + keys[pos..];
  }

  lemma TakeKeepsSorted(items: seq<Item>, values: map<Item, nat>, j: nat)
    requires SortedList(items, values) && j < |items|
    ensures SortedList(items[..j] + items[j+1..], values)
  {
    var keys := KeysOf(items, values);
    assert KeysOf(items[..j] + items[j+1..], values) == keys[..j] + keys[j+1..];
  }

  function NextUnblock(delayed: seq<Item>, values: map<Item, nat>, modulus: nat): nat
    requires modulus > 0
  {
    if delayed == [] then modulus - 1 else ValueOf(values, delayed[0])
  }

  /** The head of a sorted list bounds the value of every item the list holds. */
  lemma NextUnblockIsEarliest(lists: Lists, container: Containers, values: map<Item, nat>, l: ListId, modulus: nat)
    requires Sound(lists, container, values) && modulus > 0 && (l.Delayed1? || l.Delayed2?)
    ensures forall x :: x in container && container[x] == l ==>
              ListOf(lists, l).items != [] && NextUnblock(ListOf(lists, l).items, values, modulus) <= ValueOf(values, x)
    ensures forall i :: 0 <= i < |ListOf(lists, l).items| ==>
              ListOf(lists, l).items[i] in container && container[ListOf(lists, l).items[i]] == l
  {
    var items := ListOf(lists, l).items;
    var keys := KeysOf(items, values);
    forall x | x in container && container[x] == l
      ensures items != [] && NextUnblock(items, values, modulus) <= ValueOf(values, x)
    {
      assert x in items;
      var i :| 0 <= i < |items| && items[i] == x;
      assert keys[0] <= keys[i];
    }
    forall i | 0 <= i < |items| ensures items[i] in container && container[items[i]] == l {
      assert items[i] in items;
    }
  }

  lemma IsInItsList(lists: Lists, container: Containers, values: map<Item, nat>, x: Item)
    requires Sound(lists, container, values) && x in container
    ensures x in ListOf(lists, container[x]).items
  {
  }

  /** A list's head is in the list, and only an empty list has no head. */
  lemma HeadIsIn(lists: Lists, container: Containers, values: map<Item, nat>, l: ListId)
    requires Sound(lists, container, values)
    ensures ListOf(lists, l).items != [] ==>
              ListOf(lists, l).items[0] in container && container[ListOf(lists, l).items[0]] == l
    ensures ListOf(lists, l).items == [] ==> forall x :: x in container ==> container[x] != l
  {
    var items := ListOf(lists, l).items;
    assert items != [] ==> items[0] in items;
    if items == [] {
      forall x | x in container ensures container[x] != l {
        assert x !in ListOf(lists, l).items;
      }
    }
  }

  /** Moving the index of a list that is not a delayed list. */
  lemma NextKeepsSound(lists: Lists, container: Containers, values: map<Item, nat>, l: ListId)
    requires Sound(lists, container, values) && ListOf(lists, l).items != [] && l.Ready?
    ensures RoundRobin.Valid(ListOf(lists, l))
    ensures Sound(lists[l := Next(ListOf(lists, l))], container, values)
    ensures var x := Selected(Next(ListOf(lists, l))); x in container && container[x] == l
  {
    var r := ListOf(lists, l);
    assert RoundRobin.Valid(r);
    assert Selected(Next(r)) in r.items;
    var lists' := lists[l := Next(r)];
    forall m ensures RoundRobin.Valid(ListOf(lists', m)) {
      assert m != l ==> ListOf(lists', m) == ListOf(lists, m);
    }
    forall m, x ensures x in ListOf(lists', m).items <==> x in container && container[x] == m {
      assert x in ListOf(lists, m).items <==> x in container && container[x] == m;
    }
  }
}

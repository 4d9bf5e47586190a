/** What the scheduler's invariant says of its task lists: they partition the
    tasks, and their lengths add up to the number of tasks. */
module Partition {
  import opened RoundRobin
  import opened KernelLists
  import opened KernelState

  /** The lists that hold state items. */
  function StateLists(maxPriorities: nat): (ids: seq<ListId>)
    ensures |ids| == maxPriorities + 4
  {
    seq(maxPriorities, i requires 0 <= i < maxPriorities => Ready(i)) + [Delayed1, Delayed2, Suspended, Termination]
  }

  function TotalItems(lists: Lists, ids: seq<ListId>): nat {
    if ids == [] then 0 else TotalItems(lists, ids[..|ids|-1]) + |ListOf(lists, ids[|ids|-1]).items|
  }

  /** Every task's state item is in one state list and in no other list, the list
      being the ready list of its priority if it is a ready list; its event item is
      in at most one list. */
  lemma EachTaskIsInOneList(s: Snap, low: nat, lists: Lists, t: Task)
    requires OkFrom(s, low) && Sound(lists, s.container, s.values) && t in s.tcb
    ensures exists l :: l in StateLists(s.maxPriorities) && Fits(l, s.tcb[t])
              && StateItem(t) in ListOf(lists, l).items
              && forall m :: m != l ==> StateItem(t) !in ListOf(lists, m).items
    ensures forall l, m :: EventItem(t) in ListOf(lists, l).items && EventItem(t) in ListOf(lists, m).items ==> l == m
  {
    var l := s.container[StateItem(t)];
    assert StateItem(t) in ListOf(lists, l).items;
    ListIsStateList(l, s.maxPriorities, s.tcb[t].priority);
  }

  lemma ListIsStateList(l: ListId, maxPriorities: nat, priority: nat)
    requires priority < maxPriorities
    requires l == Ready(priority) || l == Delayed1 || l == Delayed2 || l == Suspended || l == Termination
    ensures l in StateLists(maxPriorities)
  {
    var ids := StateLists(maxPriorities);
    assert ids[priority] == Ready(priority);
    assert ids[maxPriorities] == Delayed1 && ids[maxPriorities + 1] == Delayed2;
    assert ids[maxPriorities + 2] == Suspended && ids[maxPriorities + 3] == Termination;
  }

  lemma {:induction false} DistinctItems(items: seq<Item>)
    requires Distinct(items)
    ensures |set x | x in items| == |items|
  {
    if items != [] {
      var init, last := items[..|items|-1], items[|items|-1];
      DistinctItems(init);
      assert last !in init;
      assert (set x | x in items) == (set x | x in init) + {last};
    }
  }

  lemma ItemsInOneList(lists: Lists, container: Containers, values: map<Item, nat>, l: ListId)
    requires Sound(lists, container, values)
    ensures |set x | x in container && container[x] == l| == |ListOf(lists, l).items|
  {
    var items := ListOf(lists, l).items;
    assert RoundRobin.Valid(ListOf(lists, l));
    DistinctItems(items);
    assert (set x | x in container && container[x] == l) == set x | x in items;
  }

  lemma {:induction false} ItemsInLists(lists: Lists, container: Containers, values: map<Item, nat>, ids: seq<ListId>)
    requires Sound(lists, container, values) && Distinct(ids)
    ensures |set x | x in container && container[x] in ids| == TotalItems(lists, ids)
  {
    hide Sound;
    if ids == [] {
      assert (set x | x in container && container[x] in ids) == {};
    } else {
      var init, last := ids[..|ids|-1], ids[|ids|-1];
      ItemsInLists(lists, container, values, init);
      ItemsInOneList(lists, container, values, last);
      var a, b := set x | x in container && container[x] in init, set x | x in container && container[x] == last;
      assert forall l :: l in ids <==> l in init || l == last;
      assert (set x | x in container && container[x] in ids) == a + b;
      assert last !in init;
      assert a !! b;
    }
  }

  lemma {:induction false} OneStateItemEach(tasks: set<Task>)
    ensures |set t | t in tasks :: StateItem(t)| == |tasks|
    decreases tasks
  {
    if tasks != {} {
      var u :| u in tasks;
      OneStateItemEach(tasks - {u});
      assert (set t | t in tasks :: StateItem(t)) == (set t | t in tasks - {u} :: StateItem(t)) + {StateItem(u)};
    } else {
      assert (set t | t in tasks :: StateItem(t)) == {};
    }
  }

  lemma NotAStateList(l: ListId, maxPriorities: nat)
    requires l.PendingReady? || l.EventList?
    ensures l !in StateLists(maxPriorities)
  {
  }

  lemma FiledItems(s: Snap, low: nat)
    requires OkFrom(s, low)
    ensures (set x | x in s.container && s.container[x] in StateLists(s.maxPriorities))
            == set t | t in s.tcb.Keys :: StateItem(t)
  {
    hide StateLists;
    var filed := set x | x in s.container && s.container[x] in StateLists(s.maxPriorities);
    forall t | t in s.tcb ensures StateItem(t) in filed {
      ListIsStateList(s.container[StateItem(t)], s.maxPriorities, s.tcb[t].priority);
    }
    forall x | x in filed ensures x.StateItem? && x.task in s.tcb {
      match x
      case StateItem(t) =>
      case EventItem(t) => assert false by { NotAStateList(s.container[x], s.maxPriorities); }
    }
  }

  /** uxCurrentNumberOfTasks is the total length of the ready, delayed, suspended
      and termination lists. */
  lemma TasksAreConserved(s: Snap, low: nat, lists: Lists)
    requires OkFrom(s, low) && Sound(lists, s.container, s.values)
    ensures TotalItems(lists, StateLists(s.maxPriorities)) == |s.tcb|
  {
    hide Sound, OkFrom;
    assert Distinct(StateLists(s.maxPriorities));
    ItemsInLists(lists, s.container, s.values, StateLists(s.maxPriorities));
    FiledItems(s, low);
    OneStateItemEach(s.tcb.Keys);
  }

  lemma SameSize<T>(a: set<T>, b: set<T>)
    requires a <= b
    ensures |a| == |b| <==> a == b
  {
    assert b == a + (b - a);
  }

  /** The suspended list is as long as there are tasks exactly if it holds them all. */
  lemma AllSuspended(s: Snap, low: nat, lists: Lists)
    requires OkFrom(s, low) && Sound(lists, s.container, s.values)
    ensures |ListOf(lists, Suspended).items| == |s.tcb| <==>
            forall t :: t in s.tcb ==> StateItem(t) in s.container && s.container[StateItem(t)] == Suspended
  {
    ItemsInOneList(lists, s.container, s.values, Suspended);
    OneStateItemEach(s.tcb.Keys);
    hide Sound;
    var a, b := set x | x in s.container && s.container[x] == Suspended, set t | t in s.tcb.Keys :: StateItem(t);
    forall x | x in a ensures x in b {
      match x
      case StateItem(t) =>
      case EventItem(t) =>
    }
    SameSize(a, b);
    if a == b {
      assert forall t :: t in s.tcb ==> StateItem(t) in b;
    }
  }
}

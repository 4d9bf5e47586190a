/** The history of the ready lists: every change the scheduler makes to one of them,
    in order, and what a history says about how long a ready task is passed over. */
module ReadyHistory {
  import opened RoundRobin
  import opened KernelLists

  datatype Event = Event(priority: nat, change: Change<Item>)

  /** A selection needs a task; a task arrives where it is not yet, and leaves where
      it is. */
  ghost predicate Possible(r: Ring<Item>, c: Change<Item>) {
    match c
    case Select => r.items != []
    case Arrive(y) => y !in r.items
    case Leave(y) => y in r.items
  }

  ghost function Changed(r: Ring<Item>, c: Change<Item>): (s: Ring<Item>)
    requires RoundRobin.Valid(r) && Possible(r, c)
    ensures RoundRobin.Valid(s)
  {
    match c
    case Select => Next(r)
    case Arrive(y) => InsertAtMembers(r, y, EndPosition(r)); InsertEnd(r, y)
    case Leave(y) => RemoveAtMembers(r, IndexOf(r.items, y)); Without(r, y)
  }

  /** Each event is possible when it happens to the ready list of priority p. */
  ghost predicate Plays(r: Ring<Item>, p: nat, events: seq<Event>)
    requires RoundRobin.Valid(r)
    decreases |events|
  {
    events == [] || (
      if events[0].priority == p then
        Possible(r, events[0].change) && Plays(Changed(r, events[0].change), p, events[1..])
      else
        Plays(r, p, events[1..]))
  }

  /** The ready list of priority p after the events. */
  ghost function Played(r: Ring<Item>, p: nat, events: seq<Event>): (s: Ring<Item>)
    requires RoundRobin.Valid(r) && Plays(r, p, events)
    ensures RoundRobin.Valid(s)
    decreases |events|
  {
    if events == [] then r
    else if events[0].priority == p then Played(Changed(r, events[0].change), p, events[1..])
    else Played(r, p, events[1..])
  }

  /** Every ready list is what its events have made of an empty list. */
  ghost predicate Logged(lists: Lists, log: seq<Event>) {
    forall p :: Plays(Ring([], 0), p, log) && Played(Ring([], 0), p, log) == ListOf(lists, Ready(p))
  }

  lemma {:induction false} PlayBoth(r: Ring<Item>, p: nat, a: seq<Event>, b: seq<Event>)
    requires RoundRobin.Valid(r)
    ensures Plays(r, p, a + b) <==> Plays(r, p, a) && Plays(Played(r, p, a), p, b)
    ensures Plays(r, p, a + b) ==> Played(r, p, a + b) == Played(Played(r, p, a), p, b)
    decreases |a|
  {
    if a == [] {
      assert a + b == b;
    } else {
      assert (a + b)[1..] == a[1..] + b;
      if a[0].priority != p {
        PlayBoth(r, p, a[1..], b);
      } else if Possible(r, a[0].change) {
        PlayBoth(Changed(r, a[0].change), p, a[1..], b);
      }
    }
  }

  /** One more event. */
  lemma PlayOneMore(lists: Lists, log: seq<Event>, q: nat, c: Change<Item>)
    requires Logged(lists, log) && RoundRobin.Valid(ListOf(lists, Ready(q))) && Possible(ListOf(lists, Ready(q)), c)
    ensures Logged(lists[Ready(q) := Changed(ListOf(lists, Ready(q)), c)], log + [Event(q, c)])
  {
    var lists' := lists[Ready(q) := Changed(ListOf(lists, Ready(q)), c)];
    forall p
      ensures Plays(Ring([], 0), p, log + [Event(q, c)])
      ensures Played(Ring([], 0), p, log + [Event(q, c)]) == ListOf(lists', Ready(p))
    {
      PlayBoth(Ring([], 0), p, log, [Event(q, c)]);
      var r := ListOf(lists, Ready(p));
      assert [Event(q, c)][1..] == [];
      assert p == q ==> Plays(Changed(r, c), p, []);
      assert p != q ==> Plays(r, p, []);
    }
  }

  /** The history after a change to list l, which is an event if l is a ready list. */
  ghost function Noted(log: seq<Event>, l: ListId, c: Change<Item>): seq<Event> {
    if l.Ready? then log + [Event(l.priority, c)] else log
  }

  lemma PlayNothing(lists: Lists, log: seq<Event>, l: ListId, r: Ring<Item>)
    requires Logged(lists, log) && !l.Ready?
    ensures Logged(lists[l := r], log)
  {
    assert forall p :: ListOf(lists[l := r], Ready(p)) == ListOf(lists, Ready(p));
  }

  lemma NoteChange(lists: Lists, log: seq<Event>, l: ListId, c: Change<Item>)
    requires Logged(lists, log) && RoundRobin.Valid(ListOf(lists, l)) && Possible(ListOf(lists, l), c)
    ensures Logged(lists[l := Changed(ListOf(lists, l), c)], Noted(log, l, c))
  {
    if l.Ready? {
      PlayOneMore(lists, log, l.priority, c);
    } else {
      PlayNothing(lists, log, l, Changed(ListOf(lists, l), c));
    }
  }

  /** More has happened, but no selection. */
  ghost predicate Extends(before: seq<Event>, after: seq<Event>) {
    before <= after && forall i :: |before| <= i < |after| ==> !after[i].change.Select?
  }

  // ----- the list primitives -----

  lemma TakenFromList(lists: Lists, container: Containers, values: map<Item, nat>, log: seq<Event>, x: Item)
    requires Sound(lists, container, values) && Logged(lists, log) && x in container
    ensures var l := container[x];
            && x in ListOf(lists, l).items
            && |Without(ListOf(lists, l), x).items| == |ListOf(lists, l).items| - 1
            && Sound(lists[l := Without(ListOf(lists, l), x)], container - {x}, values)
            && Logged(lists[l := Without(ListOf(lists, l), x)], Noted(log, l, Leave(x)))
  {
    var l := container[x];
    var r := ListOf(lists, l);
    assert x in r.items && RoundRobin.Valid(r);
    NoteChange(lists, log, l, Leave(x));
    TakeKeepsLinked(lists, container, l, IndexOf(r.items, x));
    if l.Delayed1? || l.Delayed2? {
      TakeKeepsSorted(r.items, values, IndexOf(r.items, x));
    }
    hide Linked, SortedList, Logged;
  }

  lemma PutLast(lists: Lists, container: Containers, values: map<Item, nat>, log: seq<Event>, l: ListId, x: Item)
    requires Sound(lists, container, values) && Logged(lists, log) && x !in container && !l.Delayed1? && !l.Delayed2?
    ensures var r := ListOf(lists, l);
            && r.index <= |r.items|
            && |WithLast(r, x).items| == |r.items| + 1
            && Sound(lists[l := WithLast(r, x)], container[x := l], values)
            && Logged(lists[l := WithLast(r, x)], Noted(log, l, Arrive(x)))
  {
    var r := ListOf(lists, l);
    assert x !in r.items && RoundRobin.Valid(r);
    NoteChange(lists, log, l, Arrive(x));
    PutKeepsLinked(lists, container, l, x, EndPosition(r));
    hide Linked, SortedList, Logged;
  }

  lemma PutSorted(lists: Lists, container: Containers, values: map<Item, nat>, log: seq<Event>, l: ListId, x: Item)
    requires Sound(lists, container, values) && Logged(lists, log) && x !in container && !l.Ready?
    ensures var lists' := lists[l := WithSorted(ListOf(lists, l), x, values)];
            Sound(lists', container[x := l], values) && Logged(lists', log)
  {
    var r := ListOf(lists, l);
    PutKeepsLinked(lists, container, l, x, InsertPosition(KeysOf(r.items, values), ValueOf(values, x)));
    if l.Delayed1? || l.Delayed2? {
      PutKeepsSorted(r.items, values, x);
    }
    PlayNothing(lists, log, l, WithSorted(r, x, values));
    hide Linked, SortedList, Logged;
  }

  lemma NothingHappens(log: seq<Event>)
    ensures Extends(log, log)
  {
  }

  // ----- fairness -----

  /** The changes to the ready list of priority p. */
  function ChangesTo(p: nat, events: seq<Event>): seq<Change<Item>> {
    if events == [] then []
    else (if events[0].priority == p then [events[0].change] else []) + ChangesTo(p, events[1..])
  }

  /** Throughout the events x stays on the ready list and is not selected. */
  ghost predicate PassesOver(r: Ring<Item>, p: nat, events: seq<Event>, x: Item)
    requires RoundRobin.Valid(r) && Plays(r, p, events)
    decreases |events|
  {
    events == [] || (
      var c := events[0].change;
      if events[0].priority == p then
        && c != Leave(x)
        && (c.Select? ==> Selected(Next(r)) != x)
        && PassesOver(Changed(r, c), p, events[1..], x)
      else
        PassesOver(r, p, events[1..], x))
  }

  lemma {:induction false} ChangesAreARun(r: Ring<Item>, p: nat, events: seq<Event>, x: Item)
    requires RoundRobin.Valid(r) && x in r.items && Plays(r, p, events) && PassesOver(r, p, events, x)
    ensures x in Played(r, p, events).items && Waits(r, x, ChangesTo(p, events))
    decreases |events|
  {
    if events != [] {
      var c := events[0].change;
      if events[0].priority == p {
        assert Allowed(r, x, c) && Changed(r, c) == Apply(r, x, c);
        ChangesAreARun(Changed(r, c), p, events[1..], x);
        assert ChangesTo(p, events) == [c] + ChangesTo(p, events[1..]);
        assert ChangesTo(p, events)[1..] == ChangesTo(p, events[1..]);
      } else {
        ChangesAreARun(r, p, events[1..], x);
        assert ChangesTo(p, events) == ChangesTo(p, events[1..]);
      }
    }
  }

  /** Between any two moments of a history, a task that stays ready and is not selected
      is passed over fewer times than it had turns to wait at the first of them, plus the
      arrivals that came while the index pointed at it; and, if it was ahead of the index,
      fewer times than it had turns to wait. */
  lemma HistoriesAreFair(lists: Lists, log: seq<Event>, lists': Lists, log': seq<Event>, p: nat, x: Item)
    requires Logged(lists, log) && Logged(lists', log') && log <= log'
    requires RoundRobin.Valid(ListOf(lists, Ready(p))) && x in ListOf(lists, Ready(p)).items
    ensures var r, events := ListOf(lists, Ready(p)), log'[|log|..];
            Plays(r, p, events) && Played(r, p, events) == ListOf(lists', Ready(p)) && (
              PassesOver(r, p, events, x) ==>
                && x in ListOf(lists', Ready(p)).items
                && Waits(r, x, ChangesTo(p, events))
                && Selections(ChangesTo(p, events)) < Turns(r, x) + Delays(r, x, ChangesTo(p, events))
                && (Ahead(r, x) ==> Selections(ChangesTo(p, events)) < Turns(r, x)))
  {
    var r, events := ListOf(lists, Ready(p)), log'[|log|..];
    assert log' == log + events;
    PlayBoth(Ring([], 0), p, log, events);
    if PassesOver(r, p, events, x) {
      ChangesAreARun(r, p, events, x);
      WaitIsAccountedFor(r, x, ChangesTo(p, events));
      if Ahead(r, x) {
        BoundedWaiting(r, x, ChangesTo(p, events));
      }
    }
  }
}

/** The value a kernel list stands for: its items in ring order after the end
    marker, and the position of the roving index.  Position 0 is the end marker
    itself and position k is items[k-1], as in the ring of pointers. */
module RoundRobin {

  datatype Ring<T> = Ring(items: seq<T>, index: nat)

  ghost predicate Distinct<T>(s: seq<T>) {
    forall i, j :: 0 <= i < j < |s| ==> s[i] != s[j]
  }

  ghost predicate Valid<T>(r: Ring<T>) {
    r.index <= |r.items| && Distinct(r.items)
  }

  function InsertAt<T>(r: Ring<T>, x: T, pos: nat): (s: Ring<T>)
    requires pos <= |r.items|
  {
    Ring(r.items[..pos] + [x] + r.items[pos..], if pos < r.index then r.index + 1 else r.index)
  }

  /** Where vListInsertEnd puts an item: just before the roving index. */
  function EndPosition<T>(r: Ring<T>): nat
    requires r.index <= |r.items|
  {
    if r.index == 0 then |r.items| else r.index - 1
  }

  function InsertEnd<T>(r: Ring<T>, x: T): Ring<T>
    requires r.index <= |r.items|
  {
    InsertAt(r, x, EndPosition(r))
  }

  function RemoveAt<T>(r: Ring<T>, j: nat): Ring<T>
    requires j < |r.items|
  {
    Ring(r.items[..j] + r.items[j+1..], if j < r.index then r.index - 1 else r.index)
  }

  /** One step of listGET_OWNER_OF_NEXT_ENTRY: forward, skipping the end marker. */
  function Next<T>(r: Ring<T>): (s: Ring<T>)
    requires r.items != [] && r.index <= |r.items|
    ensures s.items == r.items && 0 < s.index <= |s.items|
  {
    Ring(r.items, if r.index == |r.items| then 1 else r.index + 1)
  }

  /** The item the index points at. */
  function Selected<T>(r: Ring<T>): T
    requires 0 < r.index <= |r.items|
  {
    r.items[r.index - 1]
  }

  function IndexOf<T(==)>(s: seq<T>, x: T): (j: nat)
    requires x in s
    ensures j < |s| && s[j] == x
    ensures forall i :: 0 <= i < j ==> s[i] != x
  {
    if s[0] == x then 0 else 1 + IndexOf(s[1..], x)
  }

  // ----- sorted insertion -----

  /** Where vListInsert puts a key: before the first larger one. */
  function InsertPosition(keys: seq<nat>, key: nat): (pos: nat)
    ensures pos <= |keys|
    ensures forall i :: 0 <= i < pos ==> keys[i] <= key
    ensures pos < |keys| ==> key < keys[pos]
  {
    if keys == [] || key < keys[0] then 0 else 1 + InsertPosition(keys[1..], key)
  }

  /** A list without one of its items, if it is there. */
  function Remove<T(==)>(s: seq<T>, x: T): seq<T> {
    if x in s then RemoveAt(Ring(s, 0), IndexOf(s, x)).items else s
  }

  /** A list with one more item, put where its key belongs. */
  function InsertSorted<T>(s: seq<T>, keys: seq<nat>, x: T, key: nat): seq<T>
    requires |keys| == |s|
  {
    InsertAt(Ring(s, 0), x, InsertPosition(keys, key)).items
  }

  ghost predicate Ascending(keys: seq<nat>) {
    forall i, j :: 0 <= i < j < |keys| ==> keys[i] <= keys[j]
  }

  /** Sorted insertion keeps the keys sorted and puts an equal key after all the
      keys it equals. */
  lemma InsertKeepsAscending(keys: seq<nat>, key: nat)
    requires Ascending(keys)
    ensures var pos := InsertPosition(keys, key);
            Ascending(keys[..pos] + [key] + keys[pos..])
            && forall i :: pos <= i < |keys| ==> key < keys[i]
  {
  }

  // ----- membership -----

  lemma InsertAtMembers<T>(r: Ring<T>, x: T, pos: nat)
    requires Valid(r) && x !in r.items && pos <= |r.items|
    ensures Valid(InsertAt(r, x, pos))
    ensures |InsertAt(r, x, pos).items| == |r.items| + 1
    ensures forall y :: y in InsertAt(r, x, pos).items <==> y in r.items || y == x
  {
    var s := InsertAt(r, x, pos).items;
    assert s[pos] == x;
    forall y | y in r.items ensures y in s {
      var i := IndexOf(r.items, y);
      assert s[if i < pos then i else i + 1] == y;
    }
  }

  lemma RemoveAtMembers<T>(r: Ring<T>, j: nat)
    requires Valid(r) && j < |r.items|
    ensures Valid(RemoveAt(r, j))
    ensures |RemoveAt(r, j).items| == |r.items| - 1
    ensures forall y :: y in RemoveAt(r, j).items <==> y in r.items && y != r.items[j]
  {
    var s := RemoveAt(r, j).items;
    forall y | y in r.items && y != r.items[j] ensures y in s {
      var i := IndexOf(r.items, y);
      assert s[if i < j then i else i - 1] == y;
    }
  }

  // ----- fairness -----

  /** How many selections it takes, from now on, until x is the one selected. */
  ghost function Turns<T>(r: Ring<T>, x: T): (n: nat)
    requires Valid(r) && x in r.items
  {
    var p := IndexOf(r.items, x) + 1;
    if p > r.index then p - r.index else |r.items| - r.index + p
  }

  lemma PositionIsUnique<T>(s: seq<T>, x: T, j: nat)
    requires Distinct(s) && j < |s| && s[j] == x
    ensures IndexOf(s, x) == j
  {
  }

  /** Every selection brings a waiting item strictly nearer; the item selected
      is the one whose turn is next, and it then waits a full round. */
  lemma SelectionIsFair<T>(r: Ring<T>, x: T)
    requires Valid(r) && x in r.items
    ensures Valid(Next(r)) && 1 <= Turns(r, x) <= |r.items|
    ensures Selected(Next(r)) == x <==> Turns(r, x) == 1
    ensures Selected(Next(r)) != x ==> Turns(Next(r), x) == Turns(r, x) - 1
    ensures Selected(Next(r)) == x ==> Turns(Next(r), x) == |r.items|
  {
    PositionIsUnique(r.items, x, IndexOf(r.items, x));
  }

  ghost predicate PointedAt<T>(r: Ring<T>, x: T)
    requires Valid(r)
  {
    r.index > 0 && Selected(r) == x
  }

  /** Insertion pushes an item back by one turn exactly when the index points at
      that item, and otherwise leaves its turn alone. */
  lemma InsertEndShiftsTurns<T>(r: Ring<T>, x: T, y: T)
    requires Valid(r) && x in r.items && y !in r.items
    ensures Valid(InsertEnd(r, y)) && x in InsertEnd(r, y).items
    ensures Turns(InsertEnd(r, y), x) == Turns(r, x) + if PointedAt(r, x) then 1 else 0
    ensures PointedAt(InsertEnd(r, y), x) <==> PointedAt(r, x)
    ensures var i := IndexOf(r.items, x); IndexOf(InsertEnd(r, y).items, x) == if i < EndPosition(r) then i else i + 1
  {
    var pos := EndPosition(r);
    InsertAtMembers(r, y, pos);
    var i := IndexOf(r.items, x);
    PositionIsUnique(InsertEnd(r, y).items, x, if i < pos then i else i + 1);
  }

  /** Removing another item never pushes an item back, and brings it nearer by
      exactly one turn when the removed item was going to be selected first. */
  lemma RemoveShiftsTurns<T>(r: Ring<T>, x: T, j: nat)
    requires Valid(r) && x in r.items && j < |r.items| && r.items[j] != x
    ensures Valid(RemoveAt(r, j)) && x in RemoveAt(r, j).items
    ensures Turns(RemoveAt(r, j), x) == Turns(r, x) - if Turns(r, r.items[j]) < Turns(r, x) then 1 else 0
    ensures var i := IndexOf(r.items, x); IndexOf(RemoveAt(r, j).items, x) == if i < j then i else i - 1
  {
    RemoveAtMembers(r, j);
    PositionIsUnique(r.items, r.items[j], j);
    var i := IndexOf(r.items, x);
    PositionIsUnique(RemoveAt(r, j).items, x, if i < j then i else i - 1);
  }

  /** A waiting item can be overtaken by a newcomer.  The index points at x
      although c ran last, because c blocked and its removal stepped the index
      back; y then arrives and is selected before x. */
  lemma NewcomerOvertakes<T>(x: T, c: T, y: T)
    requires x != c && y != c && y != x
    ensures var running := Ring([x, c], 2);
            var blocked := RemoveAt(running, 1);
            Selected(running) == c && Turns(running, x) == 1 && Turns(blocked, x) == 1
            && Turns(InsertEnd(blocked, y), x) == 2
            && Selected(Next(InsertEnd(blocked, y))) == y
  {
    var running := Ring([x, c], 2);
    var blocked := RemoveAt(running, 1);
    assert blocked == Ring([x], 1);
    var arrived := InsertEnd(blocked, y);
    assert arrived == Ring([y, x], 2);
    PositionIsUnique(running.items, x, 0);
    PositionIsUnique(blocked.items, x, 0);
    PositionIsUnique(arrived.items, x, 1);
  }

  /** What the scheduler does to a ready list: select, make another task ready,
      or take another task off. */
  datatype Change<T> = Select | Arrive(task: T) | Leave(task: T)

  ghost predicate Allowed<T>(r: Ring<T>, x: T, c: Change<T>)
    requires Valid(r) && x in r.items
  {
    match c
    case Select => true
    case Arrive(y) => y !in r.items
    case Leave(y) => y in r.items && y != x
  }

  ghost function Apply<T>(r: Ring<T>, x: T, c: Change<T>): (s: Ring<T>)
    requires Valid(r) && x in r.items && Allowed(r, x, c)
    ensures Valid(s) && x in s.items
  {
    match c
    case Select => Next(r)
    case Arrive(y) => InsertAtMembers(r, y, EndPosition(r)); InsertEnd(r, y)
    case Leave(y) => RemoveAtMembers(r, IndexOf(r.items, y)); RemoveAt(r, IndexOf(r.items, y))
  }

  /** x lies between the index and the end marker, so the index has yet to pass it. */
  ghost predicate Ahead<T>(r: Ring<T>, x: T)
    requires Valid(r) && x in r.items
  {
    r.index <= IndexOf(r.items, x)
  }

  /** A run of changes during which x is not selected. */
  ghost predicate Waits<T>(r: Ring<T>, x: T, run: seq<Change<T>>)
    requires Valid(r) && x in r.items
    decreases |run|
  {
    run == [] || (
      && Allowed(r, x, run[0])
      && (run[0].Select? ==> Selected(Next(r)) != x)
      && Waits(Apply(r, x, run[0]), x, run[1..]))
  }

  function Selections<T>(run: seq<Change<T>>): nat {
    if run == [] then 0 else (if run[0].Select? then 1 else 0) + Selections(run[1..])
  }

  /** The arrivals of a run that come while the index points at x. */
  ghost function Delays<T>(r: Ring<T>, x: T, run: seq<Change<T>>): nat
    requires Valid(r) && x in r.items && Waits(r, x, run)
    decreases |run|
  {
    if run == [] then 0
    else (if run[0].Arrive? && PointedAt(r, x) then 1 else 0) + Delays(Apply(r, x, run[0]), x, run[1..])
  }

  /** However tasks come and go, x is passed over for fewer selections than it had
      turns to wait and newcomers have arrived while the index pointed at it. */
  lemma {:induction false} WaitIsAccountedFor<T>(r: Ring<T>, x: T, run: seq<Change<T>>)
    requires Valid(r) && x in r.items && Waits(r, x, run)
    ensures Selections(run) < Turns(r, x) + Delays(r, x, run)
    decreases |run|
  {
    SelectionIsFair(r, x);
    if run != [] {
      match run[0] {
        case Select =>
        case Arrive(y) => InsertEndShiftsTurns(r, x, y);
        case Leave(y) => RemoveShiftsTurns(r, x, IndexOf(r.items, y));
      }
      WaitIsAccountedFor(Apply(r, x, run[0]), x, run[1..]);
    }
  }

  /** While x is ahead of the index and not selected, every change leaves it ahead,
      and none puts its turn off. */
  lemma StaysAhead<T>(r: Ring<T>, x: T, c: Change<T>)
    requires Valid(r) && x in r.items && Ahead(r, x)
    requires Allowed(r, x, c) && (c.Select? ==> Selected(Next(r)) != x)
    ensures Ahead(Apply(r, x, c), x)
    ensures Turns(Apply(r, x, c), x) + (if c.Select? then 1 else 0) <= Turns(r, x)
  {
    hide IndexOf, Turns;
    match c
    case Select => SelectionIsFair(r, x);
    case Arrive(y) => InsertEndShiftsTurns(r, x, y);
    case Leave(y) => RemoveShiftsTurns(r, x, IndexOf(r.items, y));
  }

  /** Bounded waiting.  Once x is ahead of the index, no arrivals and departures
      of other tasks, however many, let it be passed over for more selections
      than it had turns to wait. */
  lemma {:induction false} BoundedWaiting<T>(r: Ring<T>, x: T, run: seq<Change<T>>)
    requires Valid(r) && x in r.items && Ahead(r, x) && Waits(r, x, run)
    ensures Selections(run) < Turns(r, x)
    decreases |run|
  {
    SelectionIsFair(r, x);
    hide Ahead, Turns, Apply, Next, Selected;
    if run != [] {
      StaysAhead(r, x, run[0]);
      BoundedWaiting(Apply(r, x, run[0]), x, run[1..]);
    }
  }

  /** A run of selections with no other change: item x is selected by exactly
      the Turns-th one, so no item waits more than one round. */
  function Advance<T>(r: Ring<T>, n: nat): (s: Ring<T>)
    requires r.items != [] && r.index <= |r.items|
    ensures s.items == r.items && s.index <= |r.items| && (n > 0 ==> s.index > 0)
    decreases n
  {
    if n == 0 then r else Next(Advance(r, n - 1))
  }

  lemma {:induction false} SelectedOnTurn<T>(r: Ring<T>, x: T, n: nat)
    requires Valid(r) && x in r.items && 1 <= n <= Turns(r, x)
    ensures Selected(Advance(r, n)) == x <==> n == Turns(r, x)
    ensures n < Turns(r, x) ==> Turns(Advance(r, n), x) == Turns(r, x) - n
    decreases n
  {
    var before := Advance(r, n - 1);
    if n > 1 {
      SelectedOnTurn(r, x, n - 1);
    }
    SelectionIsFair(before, x);
  }
}

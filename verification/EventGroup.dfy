/** event_groups.c: tasks that wait for combinations of bits.  What a task waits for,
    and what releases it, is packed with control bits into its event list item. */
module EventGroups {
  import opened RoundRobin

  type Task = nat
  type Bits = bv32

  // ----- words of bits -----

  /** The operators &, | and & ~ of the code. */
  function And(a: Bits, b: Bits): Bits {
    a & b
  }

  function Or(a: Bits, b: Bits): Bits {
    a | b
  }

  function Without(a: Bits, b: Bits): Bits {
    a & !b
  }

  const CLEAR_EVENTS_ON_EXIT_BIT: Bits := 0x01000000
  const UNBLOCKED_DUE_TO_BIT_SET: Bits := 0x02000000
  const WAIT_FOR_ALL_BITS: Bits := 0x04000000
  const EVENT_BITS_CONTROL_BYTES: Bits := 0xff000000
  const EVENT_LIST_ITEM_VALUE_IN_USE: Bits := 0x80000000

  /** What a task asks for. */
  datatype Request = Request(waitFor: Bits, clearOnExit: bool, all: bool)

  /** A word with one bit. */
  ghost predicate IsBit(p: Bits) {
    p != 0 && p & (p - 1) == 0
  }

  ghost predicate Has(bits: Bits, p: Bits) {
    bits & p != 0
  }

  /** Bit by bit: a request for all is met when every bit that it names is set, one for
      any when some bit that it names is set. */
  ghost predicate Asked(bits: Bits, r: Request) {
    if r.all then forall p :: IsBit(p) && Has(r.waitFor, p) ==> Has(bits, p)
    else exists p :: IsBit(p) && Has(r.waitFor, p) && Has(bits, p)
  }

  predicate IsPlain(bits: Bits) {
    And(bits, EVENT_BITS_CONTROL_BYTES) == 0
  }

  /** prvTestWaitCondition */
  predicate Satisfied(bits: Bits, waitFor: Bits, all: bool) {
    if all then And(bits, waitFor) == waitFor else And(bits, waitFor) != 0
  }

  predicate Meets(bits: Bits, r: Request) {
    Satisfied(bits, r.waitFor, r.all)
  }

  lemma LowestBit(x: Bits) returns (p: Bits)
    requires x != 0
    ensures IsBit(p) && Has(x, p)
    ensures forall y: Bits :: Has(And(y, x), p) <==> Has(y, p)
  {
    p := x & (!x + 1);
    LowestBitIsThere(x);
    forall y ensures Has(And(y, x), p) <==> Has(y, p) {
      LowestBitIsInside(x, y);
    }
  }

  lemma LowestBitIsThere(x: Bits)
    requires x != 0
    ensures IsBit(x & (!x + 1)) && Has(x, x & (!x + 1))
  {
  }

  lemma LowestBitIsInside(x: Bits, y: Bits)
    ensures Has(And(y, x), x & (!x + 1)) <==> Has(y, x & (!x + 1))
  {
  }

  lemma BitIsAtomic(p: Bits, a: Bits)
    requires IsBit(p)
    ensures p != 0 && (a & p == 0 || a & p == p)
  {
  }

  lemma HasBoth(a: Bits, b: Bits, p: Bits)
    requires p != 0 && (a & p == 0 || a & p == p) && (b & p == 0 || b & p == p)
    ensures Has(And(a, b), p) <==> Has(a, p) && Has(b, p)
  {
  }

  lemma HasEither(a: Bits, b: Bits, p: Bits)
    ensures Has(Or(a, b), p) <==> Has(a, p) || Has(b, p)
  {
    hide Has, Overlaps, Or;
    UnionOverlaps(a, b, p);
    HasIsOverlap(a, p);
    HasIsOverlap(b, p);
    HasIsOverlap(Or(a, b), p);
  }

  lemma HasIsOverlap(a: Bits, p: Bits)
    ensures Has(a, p) <==> Overlaps(a, p)
  {
  }

  lemma WithoutAll(a: Bits, b: Bits, p: Bits)
    ensures b & p == p ==> Without(a, b) & p == 0
  {
  }

  lemma WithoutNone(a: Bits, b: Bits, p: Bits)
    ensures b & p == 0 ==> Without(a, b) & p == a & p
  {
  }

  lemma HasOnlyFirst(a: Bits, b: Bits, p: Bits)
    requires p != 0 && (a & p == 0 || a & p == p) && (b & p == 0 || b & p == p)
    ensures Has(Without(a, b), p) <==> Has(a, p) && !Has(b, p)
  {
    hide Without;
    WithoutAll(a, b, p);
    WithoutNone(a, b, p);
  }

  /** The operators, bit by bit. */
  lemma OperatorsBitByBit(a: Bits, b: Bits, p: Bits)
    requires IsBit(p)
    ensures Has(And(a, b), p) <==> Has(a, p) && Has(b, p)
    ensures Has(Or(a, b), p) <==> Has(a, p) || Has(b, p)
    ensures Has(Without(a, b), p) <==> Has(a, p) && !Has(b, p)
    ensures !Has(0, p)
  {
    hide And, Or, Without, IsBit;
    BitIsAtomic(p, a);
    BitIsAtomic(p, b);
    HasBoth(a, b, p);
    HasEither(a, b, p);
    HasOnlyFirst(a, b, p);
    ZeroHasNothing(p);
    hide Has;
  }

  lemma ZeroHasNothing(p: Bits)
    ensures !Has(0, p)
  {
  }

  /** The test of the code is right bit by bit. */
  lemma MeetsAsAsked(bits: Bits, r: Request)
    ensures Meets(bits, r) <==> Asked(bits, r)
  {
    hide And, Without, IsBit, Has;
    var both, missing := And(bits, r.waitFor), Without(r.waitFor, bits);
    NothingIsMissing(bits, r.waitFor);
    NothingMissingIsAll(bits, r.waitFor);
    if r.all && missing != 0 {
      var p := LowestBit(missing);
      OperatorsBitByBit(r.waitFor, bits, p);
    }
    if !r.all && both != 0 {
      var p := LowestBit(both);
      OperatorsBitByBit(bits, r.waitFor, p);
    }
    forall p | IsBit(p)
      ensures Has(both, p) <==> Has(bits, p) && Has(r.waitFor, p)
      ensures Has(missing, p) <==> Has(r.waitFor, p) && !Has(bits, p)
      ensures !Has(0, p)
    {
      OperatorsBitByBit(bits, r.waitFor, p);
      OperatorsBitByBit(r.waitFor, bits, p);
    }
  }

  lemma NothingIsMissing(bits: Bits, waitFor: Bits)
    ensures And(bits, waitFor) == waitFor ==> Without(waitFor, bits) == 0
  {
  }

  lemma NothingMissingIsAll(bits: Bits, waitFor: Bits)
    ensures Without(waitFor, bits) == 0 ==> And(bits, waitFor) == waitFor
  {
  }

  function ControlBits(r: Request): Bits {
    Or(if r.clearOnExit then CLEAR_EVENTS_ON_EXIT_BIT else 0, if r.all then WAIT_FOR_ALL_BITS else 0)
  }

  /** The item value of a waiting task. */
  function Packed(r: Request): Bits {
    Or(Or(r.waitFor, ControlBits(r)), EVENT_LIST_ITEM_VALUE_IN_USE)
  }

  /** The item value of a task released by the given bits. */
  function Release(bits: Bits): Bits {
    Or(Or(bits, UNBLOCKED_DUE_TO_BIT_SET), EVENT_LIST_ITEM_VALUE_IN_USE)
  }

  /** Packing loses nothing, and cannot be mistaken for a release. */
  lemma PackingIsExact(r: Request)
    requires IsPlain(r.waitFor)
    ensures Without(Packed(r), EVENT_BITS_CONTROL_BYTES) == r.waitFor
    ensures And(And(Packed(r), EVENT_BITS_CONTROL_BYTES), WAIT_FOR_ALL_BITS) == 0 <==> !r.all
    ensures And(And(Packed(r), EVENT_BITS_CONTROL_BYTES), CLEAR_EVENTS_ON_EXIT_BIT) == 0 <==> !r.clearOnExit
    ensures And(Packed(r), UNBLOCKED_DUE_TO_BIT_SET) == 0
  {
  }

  lemma ReleaseIsExact(bits: Bits)
    requires IsPlain(bits)
    ensures Without(Release(bits), EVENT_BITS_CONTROL_BYTES) == bits
            && And(Release(bits), UNBLOCKED_DUE_TO_BIT_SET) != 0
  {
  }

  lemma AndCommutes(a: Bits, b: Bits)
    ensures And(a, b) == And(b, a)
  {
  }

  lemma OrNothing(a: Bits)
    ensures Or(a, 0) == a && Without(a, 0) == a
  {
  }

  lemma PlainBits(a: Bits, b: Bits)
    requires IsPlain(a)
    ensures IsPlain(b) ==> IsPlain(Or(a, b))
    ensures IsPlain(Without(a, b)) && Without(a, EVENT_BITS_CONTROL_BYTES) == a
  {
    AndOverOr(a, b, EVENT_BITS_CONTROL_BYTES);
    OrNothing(0);
    SubsetOfAny(a, b, EVENT_BITS_CONTROL_BYTES);
    WithoutNothing(a, EVENT_BITS_CONTROL_BYTES);
    hide And, Or, Without;
  }

  lemma WithoutNothing(a: Bits, b: Bits)
    ensures And(a, b) == 0 ==> Without(a, b) == a
  {
  }

  /** Fewer bits satisfy no more requests. */
  lemma ClearingSatisfiesNobody(bits: Bits, cleared: Bits, r: Request)
    requires !Asked(bits, r) || !Meets(bits, r)
    ensures r.waitFor != 0 ==> !Asked(Without(bits, cleared), r) && !Meets(Without(bits, cleared), r)
  {
    MeetsAsAsked(bits, r);
    MeetsAsAsked(Without(bits, cleared), r);
    SubsetOfAll(bits, cleared, r.waitFor);
    SubsetOfAny(bits, cleared, r.waitFor);
    hide And, Without, Asked;
  }

  lemma SubsetOfAll(bits: Bits, cleared: Bits, waitFor: Bits)
    ensures And(Without(bits, cleared), waitFor) == waitFor ==> And(bits, waitFor) == waitFor
  {
  }

  lemma SubsetOfAny(bits: Bits, cleared: Bits, waitFor: Bits)
    ensures And(bits, waitFor) == 0 ==> And(Without(bits, cleared), waitFor) == 0
  {
  }

  // ----- what setting bits does to the waiters -----

  predicate Releases(requests: map<Task, Request>, t: Task, bits: Bits) {
    t in requests && Meets(bits, requests[t])
  }

  predicate Clears(requests: map<Task, Request>, t: Task, bits: Bits)
    ensures Clears(requests, t, bits) ==> t in requests
  {
    Releases(requests, t, bits) && requests[t].clearOnExit
  }

  /** The tasks of the list that the bits do not release. */
  function Left(waiting: seq<Task>, requests: map<Task, Request>, bits: Bits): seq<Task> {
    if waiting == [] then []
    else
      var last := waiting[|waiting|-1];
      Left(waiting[..|waiting|-1], requests, bits) + if Releases(requests, last, bits) then [] else [last]
  }

  /** The bits to clear once the tasks that they release have seen them. */
  function ClearMask(waiting: seq<Task>, requests: map<Task, Request>, bits: Bits): Bits {
    if waiting == [] then 0
    else
      var last := waiting[|waiting|-1];
      Or(ClearMask(waiting[..|waiting|-1], requests, bits),
         if Clears(requests, last, bits) then requests[last].waitFor else 0)
  }

  /** The item values once the bits have released the tasks of the list. */
  function Valued(waiting: seq<Task>, requests: map<Task, Request>, bits: Bits,
      values: map<Task, Bits>): map<Task, Bits>
  {
    if waiting == [] then values
    else
      var last := waiting[|waiting|-1];
      var rest := Valued(waiting[..|waiting|-1], requests, bits, values);
      if Releases(requests, last, bits) then rest[last := Release(bits)] else rest
  }

  lemma {:induction false} LeftMembers(waiting: seq<Task>, requests: map<Task, Request>, bits: Bits)
    requires Distinct(waiting)
    ensures Distinct(Left(waiting, requests, bits))
    ensures forall t :: t in Left(waiting, requests, bits) <==> t in waiting && !Releases(requests, t, bits)
  {
    hide Releases;
    if waiting != [] {
      LeftMembers(waiting[..|waiting|-1], requests, bits);
    }
  }

  lemma {:induction false} ValuedElsewhere(waiting: seq<Task>, requests: map<Task, Request>, bits: Bits,
      values: map<Task, Bits>, t: Task)
    requires Distinct(waiting) && t in values
    ensures t in Valued(waiting, requests, bits, values)
    ensures Valued(waiting, requests, bits, values)[t] ==
            if t in waiting && Releases(requests, t, bits) then Release(bits) else values[t]
  {
    hide Releases, Release;
    if waiting != [] {
      ValuedElsewhere(waiting[..|waiting|-1], requests, bits, values, t);
    }
  }

  predicate Overlaps(a: Bits, b: Bits) {
    And(a, b) != 0
  }

  /** Some released task that clears on exit waits for some of the bits. */
  ghost predicate ClearedFor(waiting: seq<Task>, requests: map<Task, Request>, bits: Bits, probe: Bits) {
    exists t :: t in waiting && Clears(requests, t, bits) && Overlaps(requests[t].waitFor, probe)
  }

  lemma UnionOverlaps(a: Bits, b: Bits, probe: Bits)
    ensures Overlaps(Or(a, b), probe) <==> Overlaps(a, probe) || Overlaps(b, probe)
  {
    AndOverOr(a, b, probe);
    OrIsZero(And(a, probe), And(b, probe));
    hide And, Or;
  }

  lemma AndOverOr(a: Bits, b: Bits, c: Bits)
    ensures And(Or(a, b), c) == Or(And(a, c), And(b, c))
  {
  }

  lemma OrIsZero(a: Bits, b: Bits)
    ensures Or(a, b) == 0 <==> a == 0 && b == 0
  {
  }

  lemma NothingOverlaps(probe: Bits)
    ensures !Overlaps(0, probe)
  {
  }

  /** The mask is the union of the masks of the released tasks that clear on exit. */
  lemma {:induction false} ClearMaskIsUnion(waiting: seq<Task>, requests: map<Task, Request>, bits: Bits, probe: Bits)
    ensures Overlaps(ClearMask(waiting, requests, bits), probe) <==> ClearedFor(waiting, requests, bits, probe)
  {
    hide Overlaps, Or, Clears;
    NothingOverlaps(probe);
    if waiting != [] {
      var last := waiting[|waiting|-1];
      var rest := waiting[..|waiting|-1];
      ClearMaskIsUnion(rest, requests, bits, probe);
      UnionOverlaps(ClearMask(rest, requests, bits),
                    if Clears(requests, last, bits) then requests[last].waitFor else 0, probe);
      assert waiting == rest + [last];
    }
  }

  /** So the outcome does not depend on the order of the list. */
  lemma OrderDoesNotMatter(waiting: seq<Task>, waiting': seq<Task>, requests: map<Task, Request>, bits: Bits)
    requires forall t :: t in waiting <==> t in waiting'
    ensures ClearMask(waiting, requests, bits) == ClearMask(waiting', requests, bits)
  {
    hide Overlaps, Clears;
    var a, b := ClearMask(waiting, requests, bits), ClearMask(waiting', requests, bits);
    forall probe ensures Overlaps(a, probe) <==> Overlaps(b, probe) {
      ClearMaskIsUnion(waiting, requests, bits, probe);
      ClearMaskIsUnion(waiting', requests, bits, probe);
    }
    ProbesTell(a, b);
  }

  lemma ProbesTell(a: Bits, b: Bits)
    requires forall probe :: Overlaps(a, probe) <==> Overlaps(b, probe)
    ensures a == b
  {
    hide Overlaps;
    assert Overlaps(a, Without(a, b)) <==> Overlaps(b, Without(a, b));
    assert Overlaps(a, Without(b, a)) <==> Overlaps(b, Without(b, a));
    Differ(a, b);
  }

  lemma Differ(a: Bits, b: Bits)
    ensures a != b ==> Overlaps(a, Without(a, b)) != Overlaps(b, Without(a, b))
                       || Overlaps(a, Without(b, a)) != Overlaps(b, Without(b, a))
  {
  }

  // ----- the invariant -----

  /** A task in the middle of a wait: it waits, and the bits do not satisfy it; or it
      has been released by bits that do; or it has timed out. */
  ghost predicate TaskOk(t: Task, waits: bool, bits: Bits, value: Bits, r: Request, released: map<Task, Bits>) {
    && IsPlain(r.waitFor) && r.waitFor != 0
    && (waits ==> value == Packed(r) && !Meets(bits, r) && t !in released)
    && (!waits ==>
          if t in released
          then value == Release(released[t]) && IsPlain(released[t]) && Meets(released[t], r)
          else value == Packed(r))
  }

  ghost predicate Ok(bits: Bits, waiting: seq<Task>, values: map<Task, Bits>, requests: map<Task, Request>,
      released: map<Task, Bits>) {
    && IsPlain(bits) && Distinct(waiting)
    && (forall t :: t in waiting || t in released ==> t in requests)
    && (forall t :: t in requests ==> t in values && TaskOk(t, t in waiting, bits, values[t], requests[t], released))
  }

  /** Clearing bits leaves everybody waiting. */
  lemma ClearOk(bits: Bits, cleared: Bits, waiting: seq<Task>, values: map<Task, Bits>, requests: map<Task, Request>,
      released: map<Task, Bits>)
    requires Ok(bits, waiting, values, requests, released)
    ensures Ok(Without(bits, cleared), waiting, values, requests, released)
  {
    hide Meets, Packed, Release, IsPlain, Without;
    PlainBits(bits, cleared);
    forall t | t in requests ensures TaskOk(t, t in waiting, Without(bits, cleared), values[t], requests[t], released) {
      assert TaskOk(t, t in waiting, bits, values[t], requests[t], released);
      if t in waiting {
        ClearingSatisfiesNobody(bits, cleared, requests[t]);
      }
    }
  }

  /** Who has been released by what, once the bits have been set. */
  ghost function Released(waiting: seq<Task>, requests: map<Task, Request>, bits: Bits,
      released: map<Task, Bits>): map<Task, Bits>
  {
    map t | t in released.Keys + (set t | t in waiting && Releases(requests, t, bits)) ::
      if t in waiting && Releases(requests, t, bits) then bits else released[t]
  }

  /** What setting bits does, task by task and bit by bit: those whose request the bits
      meet leave the list, and carry the bits and the mark; the bits that some of them
      wants cleared are cleared, and no others. */
  lemma SettingIsExact(waiting: seq<Task>, requests: map<Task, Request>, full: Bits, values: map<Task, Bits>,
      released: map<Task, Bits>)
    requires Distinct(waiting) && forall t :: t in waiting ==> t in requests && t in values
    ensures forall t :: t in Left(waiting, requests, full) <==> t in waiting && !Asked(full, requests[t])
    ensures forall t :: t in Released(waiting, requests, full, released) <==>
              t in released || (t in waiting && Asked(full, requests[t]))
    ensures forall t :: t in Released(waiting, requests, full, released) ==>
              Released(waiting, requests, full, released)[t] ==
              if t in waiting && Asked(full, requests[t]) then full else released[t]
    ensures forall t :: t in values ==>
              && t in Valued(waiting, requests, full, values)
              && Valued(waiting, requests, full, values)[t] ==
                 if t in waiting && Asked(full, requests[t])
                 then full | UNBLOCKED_DUE_TO_BIT_SET | EVENT_LIST_ITEM_VALUE_IN_USE else values[t]
    ensures forall p :: IsBit(p) ==>
              (Has(Without(full, ClearMask(waiting, requests, full)), p) <==>
                 && Has(full, p)
                 && !exists t :: && t in waiting && Asked(full, requests[t]) && requests[t].clearOnExit
                                 && Has(requests[t].waitFor, p))
  {
    hide Asked, Left, ClearMask, Valued, Release, Meets, Or, Without, IsBit, Has;
    LeftMembers(waiting, requests, full);
    ReleaseValue(full);
    forall t | t in requests ensures Meets(full, requests[t]) <==> Asked(full, requests[t]) {
      MeetsAsAsked(full, requests[t]);
    }
    forall t | t in values
      ensures t in Valued(waiting, requests, full, values)
      ensures Valued(waiting, requests, full, values)[t] ==
              if t in waiting && Asked(full, requests[t]) then Release(full) else values[t]
    {
      ValuedElsewhere(waiting, requests, full, values, t);
    }
    forall p | IsBit(p)
      ensures Has(Without(full, ClearMask(waiting, requests, full)), p) <==>
                && Has(full, p)
                && !exists t :: && t in waiting && Asked(full, requests[t]) && requests[t].clearOnExit
                                && Has(requests[t].waitFor, p)
    {
      ClearsBitByBit(waiting, requests, full, p);
    }
  }

  lemma ReleaseValue(bits: Bits)
    ensures Release(bits) == bits | UNBLOCKED_DUE_TO_BIT_SET | EVENT_LIST_ITEM_VALUE_IN_USE
  {
  }

  lemma ClearsBitByBit(waiting: seq<Task>, requests: map<Task, Request>, full: Bits, p: Bits)
    requires IsBit(p) && forall t :: t in waiting ==> t in requests
    ensures Has(Without(full, ClearMask(waiting, requests, full)), p) <==>
              && Has(full, p)
              && !exists t :: && t in waiting && Asked(full, requests[t]) && requests[t].clearOnExit
                              && Has(requests[t].waitFor, p)
  {
    hide Asked, ClearMask, Meets, Or, Without, IsBit, Has, Overlaps;
    var mask := ClearMask(waiting, requests, full);
    OperatorsBitByBit(full, mask, p);
    ClearMaskIsUnion(waiting, requests, full, p);
    HasIsOverlap(mask, p);
    forall t | t in waiting
      ensures Clears(requests, t, full) && Overlaps(requests[t].waitFor, p) <==>
                Asked(full, requests[t]) && requests[t].clearOnExit && Has(requests[t].waitFor, p)
    {
      MeetsAsAsked(full, requests[t]);
      HasIsOverlap(requests[t].waitFor, p);
    }
  }

  /** Setting bits leaves no task waiting for bits that are set. */
  lemma SetOk(bits: Bits, full: Bits, waiting: seq<Task>, values: map<Task, Bits>, requests: map<Task, Request>,
      released: map<Task, Bits>)
    requires Ok(bits, waiting, values, requests, released) && IsPlain(full)
    ensures Ok(Without(full, ClearMask(waiting, requests, full)), Left(waiting, requests, full),
               Valued(waiting, requests, full, values), requests, Released(waiting, requests, full, released))
  {
    hide Meets, Packed, Release, IsPlain, Left, ClearMask, Valued, Without;
    var mask := ClearMask(waiting, requests, full);
    PlainBits(full, mask);
    LeftMembers(waiting, requests, full);
    forall t | t in requests
      ensures t in Valued(waiting, requests, full, values)
      ensures TaskOk(t, t in Left(waiting, requests, full), Without(full, mask),
                     Valued(waiting, requests, full, values)[t], requests[t],
                       Released(waiting, requests, full, released))
    {
      assert TaskOk(t, t in waiting, bits, values[t], requests[t], released);
      ValuedElsewhere(waiting, requests, full, values, t);
      if t in waiting && !Releases(requests, t, full) {
        ClearingSatisfiesNobody(full, mask, requests[t]);
      }
    }
  }

  /** A task whose condition is not met may join the list. */
  lemma PlaceOk(bits: Bits, waiting: seq<Task>, values: map<Task, Bits>, requests: map<Task, Request>,
      released: map<Task, Bits>, t: Task, r: Request)
    requires Ok(bits, waiting, values, requests, released) && t !in requests
    requires IsPlain(r.waitFor) && r.waitFor != 0 && !Meets(bits, r)
    ensures Ok(bits, waiting + [t], values[t := Packed(r)], requests[t := r], released)
  {
    hide Meets, Packed, Release, IsPlain;
    forall u | u in requests[t := r]
      ensures TaskOk(u, u in waiting + [t], bits, values[t := Packed(r)][u], requests[t := r][u], released)
    {
      assert u != t ==> TaskOk(u, u in waiting, bits, values[u], requests[u], released);
    }
  }

  lemma TimeoutOk(bits: Bits, waiting: seq<Task>, values: map<Task, Bits>, requests: map<Task, Request>,
      released: map<Task, Bits>, t: Task)
    requires Ok(bits, waiting, values, requests, released) && t in waiting
    ensures var j := IndexOf(waiting, t);
            Ok(bits, waiting[..j] + waiting[j+1..], values, requests, released)
            && forall u :: u in waiting[..j] + waiting[j+1..] <==> u in waiting && u != t
  {
    hide Meets, Packed, Release, IsPlain;
    var j := IndexOf(waiting, t);
    RemoveAtMembers(Ring(waiting, 0), j);
    var rest := waiting[..j] + waiting[j+1..];
    forall u | u in requests ensures TaskOk(u, u in rest, bits, values[u], requests[u], released) {
      assert TaskOk(u, u in waiting, bits, values[u], requests[u], released);
    }
  }

  function Dropped<T>(m: map<Task, T>, t: Task): map<Task, T> {
    map u | u in m && u != t :: m[u]
  }

  lemma FinishOk(bits: Bits, waiting: seq<Task>, values: map<Task, Bits>, requests: map<Task, Request>,
      released: map<Task, Bits>, t: Task, v: Bits)
    requires Ok(bits, waiting, values, requests, released) && t !in waiting
    ensures Ok(bits, waiting, values[t := v], Dropped(requests, t), Dropped(released, t))
  {
    hide Meets, Packed, Release, IsPlain;
    forall u | u in Dropped(requests, t)
      ensures TaskOk(u, u in waiting, bits, values[t := v][u], requests[u], Dropped(released, t))
    {
      assert TaskOk(u, u in waiting, bits, values[u], requests[u], released);
    }
  }

  /** What the awakened task reads out of its item value: whether bits released it,
      and if so which. */
  lemma AwakenedReads(bits: Bits, waiting: seq<Task>, values: map<Task, Bits>, requests: map<Task, Request>,
      released: map<Task, Bits>, t: Task)
    requires Ok(bits, waiting, values, requests, released) && t in requests && t !in waiting
    ensures t in values && (And(values[t], UNBLOCKED_DUE_TO_BIT_SET) != 0 <==> t in released)
    ensures t in released ==>
              Without(values[t], EVENT_BITS_CONTROL_BYTES) == released[t] && Meets(released[t], requests[t])
    ensures IsPlain(requests[t].waitFor) && IsPlain(bits) && Without(bits, EVENT_BITS_CONTROL_BYTES) == bits
  {
    hide Meets, Packed, Release, IsPlain, And, Without;
    assert TaskOk(t, false, bits, values[t], requests[t], released);
    PackingIsExact(requests[t]);
    PlainBits(bits, 0);
    if t in released {
      ReleaseIsExact(released[t]);
    }
  }

  /** Tasks that synchronise on the same bits are released all or none. */
  lemma AllOrNone(waiting: seq<Task>, requests: map<Task, Request>, bits: Bits, r: Request)
    requires Distinct(waiting)
    ensures forall t :: t in waiting && t in requests && requests[t] == r ==>
              (t in Left(waiting, requests, bits) <==> !Asked(bits, r))
  {
    LeftMembers(waiting, requests, bits);
    MeetsAsAsked(bits, r);
    hide Asked, Meets;
  }

  // ----- the event group -----

  /** How the first part of a wait ends. */
  datatype Outcome = Returned(value: Bits) | Blocked

  class EventGroup {
    var bits: Bits
    var waiting: seq<Task>
    /** The event list items of the tasks. */
    var values: map<Task, Bits>
    /** What each task in the middle of a wait has asked for, and the bits that have
        released it, if any have. */
    ghost var requests: map<Task, Request>
    ghost var released: map<Task, Bits>

    /** Above all: no task is left waiting for bits that are set. */
    ghost predicate Valid()
      reads this
    {
      Ok(bits, waiting, values, requests, released)
    }

    constructor ()
      ensures Valid() && bits == 0 && waiting == [] && requests == map[]
    {
      bits, waiting, values, requests, released := 0, [], map[], map[], map[];
    }

    /** vTaskRemoveFromUnorderedEventList on the i-th waiter. */
    method RemoveFromUnorderedEventList(i: nat, value: Bits)
      requires i < |waiting|
      modifies this`waiting, this`values
      ensures waiting == old(waiting)[..i] + old(waiting)[i+1..]
      ensures values == old(values)[old(waiting)[i] := Or(value, EVENT_LIST_ITEM_VALUE_IN_USE)]
    {
      values := values[waiting[i] := Or(value, EVENT_LIST_ITEM_VALUE_IN_USE)];
      waiting := waiting[..i] + waiting[i+1..];
    }

    /** What the loop in xEventGroupSetBits reads out of an item value: what the task
        waits for, whether it clears on exit, and whether its condition is met. */
    method ReadItem(value: Bits, ghost r: Request) returns (controlBits: Bits, bitsWaitedFor: Bits, matchFound: bool)
      requires value == Packed(r) && IsPlain(r.waitFor)
      ensures bitsWaitedFor == r.waitFor && (matchFound <==> Asked(bits, r))
      ensures And(controlBits, CLEAR_EVENTS_ON_EXIT_BIT) != 0 <==> r.clearOnExit
    {
      hide Packed, And, Or, Without, IsPlain, Asked;
      PackingIsExact(r);
      MeetsAsAsked(bits, r);
      AndCommutes(bits, r.waitFor);
      controlBits := And(value, EVENT_BITS_CONTROL_BYTES);
      bitsWaitedFor := Without(value, EVENT_BITS_CONTROL_BYTES);
      matchFound := false;
      if And(controlBits, WAIT_FOR_ALL_BITS) == 0 {
        if And(bitsWaitedFor, bits) != 0 {
          matchFound := true;
        }
      } else if And(bitsWaitedFor, bits) == bitsWaitedFor {
        matchFound := true;
      }
    }

    /** One iteration of the loop in xEventGroupSetBits. */
    method TestWaiter(i: nat, toClear: Bits, ghost r: Request) returns (matchFound: bool, bitsToClear: Bits)
      requires i < |waiting| && waiting[i] in values && values[waiting[i]] == Packed(r) && IsPlain(r.waitFor)
      modifies this`waiting, this`values
      ensures matchFound <==> Asked(bits, r)
      ensures bitsToClear == Or(toClear, if matchFound && r.clearOnExit then r.waitFor else 0)
      ensures !matchFound ==> waiting == old(waiting) && values == old(values)
      ensures matchFound ==> waiting == old(waiting)[..i] + old(waiting)[i+1..]
      ensures matchFound ==> values == old(values)[old(waiting)[i] := Release(bits)]
    {
      hide Packed, And, Or, Without, IsPlain, Asked;
      OrNothing(toClear);
      var controlBits, bitsWaitedFor;
      controlBits, bitsWaitedFor, matchFound := ReadItem(values[waiting[i]], r);
      bitsToClear := toClear;
      if matchFound {
        if And(controlBits, CLEAR_EVENTS_ON_EXIT_BIT) != 0 {
          bitsToClear := Or(bitsToClear, bitsWaitedFor);
        }
        RemoveFromUnorderedEventList(i, Or(bits, UNBLOCKED_DUE_TO_BIT_SET));
      }
    }

    /** The loop in xEventGroupSetBits. */
    method TestWaiters(ghost was: Bits) returns (bitsToClear: Bits)
      requires Ok(was, waiting, values, requests, released)
      modifies this`waiting, this`values
      ensures bitsToClear == ClearMask(old(waiting), requests, bits)
      ensures waiting == Left(old(waiting), requests, bits)
      ensures values == Valued(old(waiting), requests, bits, old(values))
    {
      hide Ok, Packed, Release, Meets, Or, IsPlain, Scanned, Asked;
      ghost var all := waiting;
      bitsToClear := 0;
      var i := 0;
      ghost var k := 0;
      NothingScanned(all, requests, bits, values);
      while i < |waiting|
        invariant Scanned(all, k, requests, bits, old(values), waiting, i, bitsToClear, values)
        decreases |all| - k
      {
        NextWaiter(all, k, was, old(values), requests, released, bits, waiting, i, bitsToClear, values);
        var matchFound;
        MeetsAsAsked(bits, requests[all[k]]);
        matchFound, bitsToClear := TestWaiter(i, bitsToClear, requests[all[k]]);
        if !matchFound {
          i := i + 1;
        }
        k := k + 1;
      }
      AllScanned(all, k, requests, bits, old(values), waiting, i, bitsToClear, values);
    }

    /** xEventGroupSetBits: exactly the waiters that the bits satisfy are released,
        each by all the bits as they are then, and only then are the bits cleared
        that any of them wanted cleared. */
    method SetBits(bitsToSet: Bits)
      requires Valid() && IsPlain(bitsToSet)
      modifies this`bits, this`waiting, this`values, this`released
      ensures Valid()
      ensures var full := Or(old(bits), bitsToSet);
              && bits == Without(full, ClearMask(old(waiting), requests, full))
              && waiting == Left(old(waiting), requests, full)
              && released == Released(old(waiting), requests, full, old(released))
              && values == Valued(old(waiting), requests, full, old(values))
      ensures var full := Or(old(bits), bitsToSet);
              && (forall t :: t in old(waiting) ==> t in requests)
              && (forall t :: t in waiting <==> t in old(waiting) && !Asked(full, requests[t]))
              && (forall t :: t in released <==> t in old(released) || (t in old(waiting) && Asked(full, requests[t])))
              && (forall t :: t in released ==>
                    released[t] == if t in old(waiting) && Asked(full, requests[t]) then full else old(released)[t])
              && (forall t :: t in old(values) ==>
                    && t in values
                    && values[t] == if t in old(waiting) && Asked(full, requests[t])
                                    then full | UNBLOCKED_DUE_TO_BIT_SET | EVENT_LIST_ITEM_VALUE_IN_USE
                                    else old(values)[t])
              && (forall p :: IsBit(p) ==>
                    (Has(bits, p) <==>
                       && (Has(old(bits), p) || Has(bitsToSet, p))
                       && !exists t :: && t in old(waiting) && Asked(full, requests[t]) && requests[t].clearOnExit
                                       && Has(requests[t].waitFor, p)))
    {
      hide Ok, Or, Without, IsPlain, Left, ClearMask, Valued, Released, Asked, IsBit, Has, Distinct;
      WaitersAsk(bits, waiting, values, requests, released);
      SettingIsExact(waiting, requests, Or(bits, bitsToSet), values, released);
      forall p | IsBit(p) ensures Has(Or(bits, bitsToSet), p) <==> Has(bits, p) || Has(bitsToSet, p) {
        OperatorsBitByBit(bits, bitsToSet, p);
      }
      BitsArePlain(bits, waiting, values, requests, released);
      PlainBits(bits, bitsToSet);
      SetOk(bits, Or(bits, bitsToSet), waiting, values, requests, released);
      bits := Or(bits, bitsToSet);
      ghost var full, all := bits, waiting;
      var bitsToClear := TestWaiters(old(bits));
      bits := Without(bits, bitsToClear);
      released := Released(all, requests, full, released);
    }

    /** vTaskPlaceOnUnorderedEventList */
    method PlaceOnUnorderedEventList(t: Task, itemValue: Bits)
      modifies this`waiting, this`values
      ensures waiting == old(waiting) + [t]
      ensures values == old(values)[t := Or(itemValue, EVENT_LIST_ITEM_VALUE_IN_USE)]
    {
      values := values[t := Or(itemValue, EVENT_LIST_ITEM_VALUE_IN_USE)];
      waiting := waiting + [t];
    }

    /** xEventGroupWaitBits up to the point where it returns or blocks. */
    method WaitBits(t: Task, waitFor: Bits, clearOnExit: bool, all: bool, ticksToWait: nat) returns (outcome: Outcome)
      requires Valid() && t !in requests && IsPlain(waitFor) && waitFor != 0
      modifies this`bits, this`waiting, this`values, this`requests
      ensures Valid()
      ensures var r := Request(waitFor, clearOnExit, all);
              if Asked(old(bits), r) then
                && outcome == Returned(old(bits))
                && bits == (if clearOnExit then Without(old(bits), waitFor) else old(bits))
                && waiting == old(waiting) && requests == old(requests) && values == old(values)
              else
                && bits == old(bits)
                && if ticksToWait == 0 then
                     && outcome == Returned(bits)
                     && waiting == old(waiting) && requests == old(requests) && values == old(values)
                   else
                     && outcome == Blocked && waiting == old(waiting) + [t]
                     && requests == old(requests)[t := r] && values == old(values)[t := Packed(r)]
    {
      hide Ok, Or, And, Without, IsPlain, Asked;
      MeetsAsAsked(bits, Request(waitFor, clearOnExit, all));
      if Satisfied(bits, waitFor, all) {
        outcome := Returned(bits);
        if clearOnExit {
          ClearOk(bits, waitFor, waiting, values, requests, released);
          bits := Without(bits, waitFor);
        }
      } else if ticksToWait == 0 {
        outcome := Returned(bits);
      } else {
        PlaceOk(bits, waiting, values, requests, released, t, Request(waitFor, clearOnExit, all));
        var controlBits: Bits := 0;
        if clearOnExit {
          controlBits := CLEAR_EVENTS_ON_EXIT_BIT;
        }
        if all {
          controlBits := Or(controlBits, WAIT_FOR_ALL_BITS);
        }
        OrNothing(controlBits);
        OrWithNothing(WAIT_FOR_ALL_BITS);
        PlaceOnUnorderedEventList(t, Or(waitFor, controlBits));
        requests := requests[t := Request(waitFor, clearOnExit, all)];
        outcome := Blocked;
      }
    }

    /** The rest of xEventGroupWaitBits, or of xEventGroupSync, once the task that
        blocked runs again; its item value returns to normal.  A task released by bits
        returns those, and they meet its condition; one that timed out is never taken
        for one, and returns the bits of the moment. */
    method FinishWait(t: Task, waitFor: Bits, clearOnExit: bool, all: bool, normalValue: Bits) returns (value: Bits)
      requires Valid() && t in requests && requests[t] == Request(waitFor, clearOnExit, all) && t !in waiting
      modifies this`bits, this`values, this`requests, this`released
      ensures Valid() && values == old(values)[t := normalValue]
      ensures requests == Dropped(old(requests), t) && released == Dropped(old(released), t)
      ensures t in old(released) ==>
                && value == old(released)[t] && Asked(value, Request(waitFor, clearOnExit, all))
                && bits == old(bits)
      ensures t !in old(released) ==>
                && value == old(bits)
                && bits == if Asked(old(bits), Request(waitFor, clearOnExit, all)) && clearOnExit
                           then Without(old(bits), waitFor) else old(bits)
    {
      hide Ok, And, Without, IsPlain, Asked;
      MeetsAsAsked(bits, Request(waitFor, clearOnExit, all));
      if t in released {
        MeetsAsAsked(released[t], Request(waitFor, clearOnExit, all));
      }
      AwakenedReads(bits, waiting, values, requests, released, t);
      FinishOk(bits, waiting, values, requests, released, t, normalValue);
      value := values[t];
      values := values[t := normalValue];
      requests := Dropped(requests, t);
      released := Dropped(released, t);
      if And(value, UNBLOCKED_DUE_TO_BIT_SET) == 0 {
        value := bits;
        if Satisfied(value, waitFor, all) {
          if clearOnExit {
            ClearOk(bits, waitFor, waiting, values, requests, released);
            bits := Without(bits, waitFor);
          }
        }
      }
      value := Without(value, EVENT_BITS_CONTROL_BYTES);
    }

    /** The timeout of a waiter: its item leaves the list, with its value. */
    method Timeout(t: Task)
      requires Valid() && t in waiting
      modifies this`waiting
      ensures Valid() && |waiting| == |old(waiting)| - 1 && waiting == Remove(old(waiting), t)
      ensures forall u :: u in waiting <==> u in old(waiting) && u != t
    {
      hide Ok;
      TimeoutOk(bits, waiting, values, requests, released, t);
      var j := IndexOf(waiting, t);
      waiting := waiting[..j] + waiting[j+1..];
    }

    /** xEventGroupClearBits */
    method ClearBits(bitsToClear: Bits) returns (value: Bits)
      requires Valid() && IsPlain(bitsToClear)
      modifies this`bits
      ensures Valid() && value == old(bits) && bits == Without(old(bits), bitsToClear)
    {
      hide Ok;
      ClearOk(bits, bitsToClear, waiting, values, requests, released);
      value := bits;
      bits := Without(bits, bitsToClear);
    }

    /** xEventGroupSync up to the point where it returns or blocks: the task that
        completes the bits goes on, with all the tasks that wait for the same bits;
        otherwise none of them does. */
    method Sync(t: Task, bitsToSet: Bits, waitFor: Bits, ticksToWait: nat) returns (outcome: Outcome)
      requires Valid() && t !in requests && IsPlain(bitsToSet) && IsPlain(waitFor) && waitFor != 0
      modifies this`bits, this`waiting, this`values, this`requests, this`released
      ensures Valid()
      ensures var full, r := Or(old(bits), bitsToSet), Request(waitFor, true, true);
              && (forall u :: u in old(waiting) && u in old(requests) && old(requests)[u] == r ==>
                    (u in waiting <==> !Asked(full, r)))
              && released == Released(old(waiting), old(requests), full, old(released))
              && var left, valued := Left(old(waiting), old(requests), full),
                                     Valued(old(waiting), old(requests), full, old(values));
                 if Asked(full, r) then
                   && outcome == Returned(full)
                   && waiting == left && requests == old(requests) && values == valued
                   && bits == Without(Without(full, ClearMask(old(waiting), old(requests), full)), waitFor)
                 else
                   && bits == Without(full, ClearMask(old(waiting), old(requests), full))
                   && if ticksToWait == 0 then
                        && outcome == Returned(bits)
                        && waiting == left && requests == old(requests) && values == valued
                      else
                        && outcome == Blocked && waiting == left + [t]
                        && requests == old(requests)[t := r] && values == valued[t := Packed(r)]
    {
      hide Ok, Or, And, Without, IsPlain, Left, ClearMask, Valued, Released, Asked, IsBit, Has;
      ghost var full, r := Or(bits, bitsToSet), Request(waitFor, true, true);
      MeetsAsAsked(full, r);
      WaitersAsk(bits, waiting, values, requests, released);
      AllOrNone(waiting, requests, full, r);
      var originalBitValue := bits;
      SetBits(bitsToSet);
      if And(Or(originalBitValue, bitsToSet), waitFor) == waitFor {
        outcome := Returned(Or(originalBitValue, bitsToSet));
        ClearOk(bits, waitFor, waiting, values, requests, released);
        bits := Without(bits, waitFor);
      } else if ticksToWait != 0 {
        ClearingSatisfiesNobody(full, ClearMask(old(waiting), requests, full), r);
        PlaceOk(bits, waiting, values, requests, released, t, r);
        OrIsAssociative(waitFor, CLEAR_EVENTS_ON_EXIT_BIT, WAIT_FOR_ALL_BITS);
        PlaceOnUnorderedEventList(t, Or(Or(waitFor, CLEAR_EVENTS_ON_EXIT_BIT), WAIT_FOR_ALL_BITS));
        requests := requests[t := r];
        outcome := Blocked;
      } else {
        outcome := Returned(bits);
      }
    }
  }

  lemma OrIsAssociative(a: Bits, b: Bits, c: Bits)
    ensures Or(Or(a, b), c) == Or(a, Or(b, c))
  {
  }

  lemma OrWithNothing(a: Bits)
    ensures Or(0, a) == a && Or(0, 0) == 0
  {
  }

  lemma WaitersAsk(bits: Bits, waiting: seq<Task>, values: map<Task, Bits>, requests: map<Task, Request>,
      released: map<Task, Bits>)
    requires Ok(bits, waiting, values, requests, released)
    ensures Distinct(waiting) && forall t :: t in waiting ==> t in requests && t in values
  {
  }

  lemma BitsArePlain(bits: Bits, waiting: seq<Task>, values: map<Task, Bits>, requests: map<Task, Request>,
      released: map<Task, Bits>)
    requires Ok(bits, waiting, values, requests, released)
    ensures IsPlain(bits)
  {
  }

  /** The loop has dealt with the first k waiters and is at position i of the list. */
  ghost predicate Scanned(all: seq<Task>, k: nat, requests: map<Task, Request>, bits: Bits, was: map<Task, Bits>,
                          waiting: seq<Task>, i: nat, mask: Bits, values: map<Task, Bits>) {
    && k <= |all| && i == |Left(all[..k], requests, bits)|
    && waiting == Left(all[..k], requests, bits) + all[k..]
    && mask == ClearMask(all[..k], requests, bits)
    && values == Valued(all[..k], requests, bits, was)
  }

  lemma NothingScanned(all: seq<Task>, requests: map<Task, Request>, bits: Bits, values: map<Task, Bits>)
    ensures Scanned(all, 0, requests, bits, values, all, 0, 0, values)
  {
  }

  lemma AllScanned(all: seq<Task>, k: nat, requests: map<Task, Request>, bits: Bits, was: map<Task, Bits>,
                   waiting: seq<Task>, i: nat, mask: Bits, values: map<Task, Bits>)
    requires Scanned(all, k, requests, bits, was, waiting, i, mask, values) && i >= |waiting|
    ensures waiting == Left(all, requests, bits) && mask == ClearMask(all, requests, bits)
    ensures values == Valued(all, requests, bits, was)
  {
    assert all[..k] == all;
  }

  /** How the outcome grows by one waiter, whether it is removed or not. */
  lemma NextWaiter(all: seq<Task>, k: nat, bits: Bits, was: map<Task, Bits>,
                   requests: map<Task, Request>, released: map<Task, Bits>,
                   full: Bits, waiting: seq<Task>, i: nat, mask: Bits, values: map<Task, Bits>)
    requires Ok(bits, all, was, requests, released)
    requires Scanned(all, k, requests, full, was, waiting, i, mask, values) && i < |waiting|
    ensures k < |all| && waiting[i] == all[k] && all[k] in requests && IsPlain(requests[all[k]].waitFor)
    ensures all[k] in values && values[all[k]] == Packed(requests[all[k]])
    ensures var t, r := all[k], requests[all[k]];
            if Meets(full, r) then
              Scanned(all, k + 1, requests, full, was, waiting[..i] + waiting[i+1..], i,
                      Or(mask, if r.clearOnExit then r.waitFor else 0), values[t := Release(full)])
            else
              Scanned(all, k + 1, requests, full, was, waiting, i + 1, Or(mask, 0), values)
  {
    hide Packed, Release, Meets, Or, IsPlain, Left, ClearMask, Valued;
    assert TaskOk(all[k], true, bits, was[all[k]], requests[all[k]], released);
    ValuedElsewhere(all[..k], requests, full, was, all[k]);
    hide Ok, Distinct;
    Grow(all, k, requests, full, was);
    Splice(Left(all[..k], requests, full), all, k);
  }

  lemma Grow(all: seq<Task>, k: nat, requests: map<Task, Request>, bits: Bits, was: map<Task, Bits>)
    requires k < |all| && all[k] in requests
    ensures var t, r := all[k], requests[all[k]];
            && Left(all[..k+1], requests, bits) == Left(all[..k], requests, bits) + (if Meets(bits, r) then [] else [t])
            && ClearMask(all[..k+1], requests, bits) ==
               Or(ClearMask(all[..k], requests, bits), if Meets(bits, r) && r.clearOnExit then r.waitFor else 0)
            && Valued(all[..k+1], requests, bits, was) ==
               if Meets(bits, r) then Valued(all[..k], requests, bits, was)[t := Release(bits)]
               else Valued(all[..k], requests, bits, was)
  {
    hide Release, Meets, Or;
    assert all[..k+1][..k] == all[..k] && all[..k+1][k] == all[k];
  }

  lemma Splice(left: seq<Task>, all: seq<Task>, k: nat)
    requires k < |all|
    ensures var list := left + all[k..];
            && list[|left|] == all[k] && list[..|left|] + list[|left|+1..] == left + all[k+1..]
            && list == left + [all[k]] + all[k+1..]
  {
  }
}
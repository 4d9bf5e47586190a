/** The state of the timer service as a value: the invariant that ties every
    auto-reload timer to the instants at which it must fire. */
module TimerState {
  import opened Arithmetic
  import opened RoundRobin
  import opened Periods

  type TimerId = nat

  /** A timer: its period, its status bits, and the value of its list item. */
  datatype Timer = Timer(period: nat, autoReload: bool, active: bool, value: nat)

  datatype Command =
    | Start(timer: TimerId, time: nat)
    | Stop(timer: TimerId)
    | ChangePeriod(timer: TimerId, period: nat)
    | Delete(timer: TimerId)

  /** A timer's life since it was started: the absolute time of the command that
      started it, the number of its callbacks before, and the absolute times of
      those since. */
  datatype Life = Life(origin: nat, before: nat, calls: seq<nat>)

  /** A snapshot, with the timers whose callbacks have been called, in order.  Times in
      the lists and commands are tick counts; the epoch is the absolute time at which
      the tick count was 0 when it was last sampled, and the stamps are the absolute
      times of the queued commands. */
  datatype Service = Service(
    modulus: nat, timers: map<TimerId, Timer>,
    current: seq<TimerId>, overflow: seq<TimerId>,
    queue: seq<Command>, callbacks: seq<TimerId>,
    epoch: nat, stamps: seq<nat>, lives: map<TimerId, Life>)

  // ----- instants -----

  /** The k-th instant of a timer started at origin with period p. */
  function Instant(origin: nat, p: nat, k: nat): nat {
    if k == 0 then origin else Instant(origin, p, k - 1) + p
  }

  lemma {:induction false} InstantIsMultiple(origin: nat, p: nat, k: nat)
    ensures Instant(origin, p, k) == origin + k * p
  {
    if k > 0 {
      InstantIsMultiple(origin, p, k - 1);
      assert k * p == (k - 1) * p + p;
    }
  }

  // ----- the decision -----

  datatype Decision = ProcessNow | ToCurrent | ToOverflow

  /** prvInsertTimerInActiveList: what to do with a timer that expires one period
      after the command time. */
  function Decide(nextExpiry: nat, now: nat, commandTime: nat, period: nat, m: nat): Decision
    requires now < m && commandTime < m
  {
    if nextExpiry <= now then
      if WrapSub(now, commandTime, m) >= period then ProcessNow else ToOverflow
    else
      if now < commandTime && nextExpiry >= commandTime then ProcessNow else ToCurrent
  }

  /** For a command given at the last instant with its tick count, the decision is
      exact: the timer is processed at once if and only if it has expired, and
      otherwise it goes to the list of the epoch in which it will expire. */
  lemma DecisionIsExact(commandTime: nat, period: nat, epoch: int, now: nat, m: nat)
    requires commandTime < m && now < m && 0 < period < m
    ensures var expiry := LastInstant(commandTime, epoch, now, m) + period;
            var next := WrapAdd(commandTime, period, m);
            match Decide(next, now, commandTime, period, m)
            case ProcessNow => expiry <= epoch + now
            case ToCurrent => epoch + now < expiry && expiry == epoch + next
            case ToOverflow => epoch + now < expiry && expiry == epoch + m + next
  {
  }

  /** The stamp of a command is the last instant with its tick count if and only
      if the command is processed less than a full wrap after it was given. */
  lemma StampIsLastInstant(stamp: nat, time: nat, epoch: nat, now: nat, m: nat)
    requires m > 0 && time < m && now < m && epoch % m == 0
    requires time <= stamp <= epoch + now && (stamp - time) % m == 0
    ensures stamp == LastInstant(time, epoch, now, m) <==> epoch + now - stamp < m
  {
    var d := WholeWraps(stamp - time, epoch, m);
    Multiples(d, m);
  }

  /** Two multiples of m differ by a multiple of m. */
  lemma WholeWraps(a: nat, b: nat, m: nat) returns (d: int)
    requires m > 0 && a % m == 0 && b % m == 0
    ensures b - a == d * m
  {
    d := b / m - a / m;
    assert b / m * m - a / m * m == d * m;
  }

  /** A START of this age is decided rightly. */
  predicate Timely(age: nat, period: nat, m: nat)
    requires m > 0
  {
    age < m || age % m >= period
  }

  /** Whatever the age of a START, the decision to process its timer at once is right
      except in one case: the command is at least a full wrap old, and what exceeds
      whole wraps is shorter than the period. */
  lemma DecisionIsRightExactlyWhen(stamp: nat, time: nat, period: nat, epoch: nat, now: nat, m: nat)
    requires m > 0 && time < m && now < m && epoch % m == 0 && 0 < period < m
    requires time <= stamp <= epoch + now && (stamp - time) % m == 0
    ensures var age := epoch + now - stamp;
            (Decide(WrapAdd(time, period, m), now, time, period, m) == ProcessNow <==> age >= period)
            <==> Timely(age, period, m)
  {
    DecisionIsExact(time, period, epoch, now, m);
    AgeRemainder(stamp, time, epoch, now, m);
    SmallRemainder(epoch + now - stamp, m);
  }

  lemma AgeRemainder(stamp: nat, time: nat, epoch: nat, now: nat, m: nat)
    requires m > 0 && time < m && now < m && epoch % m == 0
    requires time <= stamp <= epoch + now && (stamp - time) % m == 0
    ensures (epoch + now - stamp) % m == epoch + now - LastInstant(time, epoch, now, m)
  {
    var d := WholeWraps(stamp - time, epoch, m);
    var q := if time <= now then d else d - 1;
    Distributes(d, 1, m);
    RemainderIs(epoch + now - stamp, q, m, epoch + now - LastInstant(time, epoch, now, m));
  }

  lemma RemainderIs(a: nat, q: int, m: nat, r: nat)
    requires a == q * m + r && r < m
    ensures a % m == r
  {
    Quotient(a, m);
    Distributes(a / m, q, m);
    Multiples(a / m - q, m);
  }

  /** A command processed a full wrap late is misjudged: a timer with period 7,
      started at 5, is still filed as pending at time 26 when the tick count has 16
      values, although it expired at 12. */
  lemma LateCommandIsMisjudged()
    ensures 5 + 7 <= 26 && Decide(WrapAdd(5, 7, 16), 26 % 16, 5, 7, 16) == ToCurrent
  {
  }

  // ----- the invariant -----

  function ValueOf(timers: map<TimerId, Timer>, x: TimerId): nat {
    if x in timers then timers[x].value else 0
  }

  function PeriodOf(timers: map<TimerId, Timer>, x: TimerId): nat {
    if x in timers then timers[x].period else 0
  }

  function KeysOf(items: seq<TimerId>, timers: map<TimerId, Timer>): (keys: seq<nat>)
    ensures |keys| == |items|
    ensures forall i :: 0 <= i < |keys| ==> keys[i] == ValueOf(timers, items[i])
  {
    seq(|items|, i requires 0 <= i < |items| => ValueOf(timers, items[i]))
  }

  /** A list of timers: existing ones, without repetition, the earliest first. */
  ghost predicate GoodList(items: seq<TimerId>, timers: map<TimerId, Timer>) {
    && Distinct(items)
    && (forall x :: x in items ==> x in timers)
    && Ascending(KeysOf(items, timers))
  }

  ghost predicate GoodQueue(s: Service)
    requires s.modulus > 0
  {
    && |s.stamps| == |s.queue|
    && (forall i :: 0 <= i < |s.queue| ==> s.queue[i].timer in s.timers)
    && (forall i :: 0 <= i < |s.queue| && s.queue[i].Start? ==> GoodStart(s.queue[i].time, s.stamps[i], s.modulus))
    && (forall i :: 0 <= i < |s.queue| && s.queue[i].ChangePeriod? ==> 0 < s.queue[i].period < s.modulus)
  }

  /** The stamp is an absolute time with the given tick count. */
  ghost predicate GoodStart(time: nat, stamp: nat, m: nat)
    requires m > 0
  {
    time < m && time <= stamp && (stamp - time) % m == 0
  }

  ghost predicate Shaped(s: Service) {
    && s.modulus > 1 && s.epoch % s.modulus == 0
    && (forall x :: x in s.timers ==> 0 < s.timers[x].period < s.modulus && s.timers[x].value < s.modulus)
    && GoodList(s.current, s.timers) && GoodList(s.overflow, s.timers)
    && (forall x :: x in s.current ==> x !in s.overflow)
    && GoodQueue(s)
  }

  predicate Filed(s: Service, x: TimerId) {
    x in s.current || x in s.overflow
  }

  /** The absolute time at which a filed timer expires. */
  function Expiry(s: Service, x: TimerId): nat {
    s.epoch + ValueOf(s.timers, x) + if x in s.overflow then s.modulus else 0
  }

  /** The next instant at which a live timer must fire. */
  function Due(s: Service, x: TimerId): nat
    requires x in s.lives
  {
    Instant(s.lives[x].origin, PeriodOf(s.timers, x), |s.lives[x].calls| + 1)
  }

  /** No callback of a live timer has preceded its instant. */
  ghost predicate Punctual(life: Life, timers: map<TimerId, Timer>, x: TimerId) {
    && x in timers && timers[x].autoReload
    && forall k :: 0 <= k < |life.calls| ==> life.calls[k] >= Instant(life.origin, timers[x].period, k + 1)
  }

  ghost predicate NoCommand(queue: seq<Command>, x: TimerId) {
    forall i :: 0 <= i < |queue| ==> queue[i].timer != x
  }

  /** The queue holds one command for the timer: a START with the instant before
      the one that is due. */
  ghost predicate Awaits(s: Service, x: TimerId)
    requires x in s.lives
  {
    exists i :: 0 <= i < |s.queue| && AwaitsAt(s, x, i)
  }

  ghost predicate AwaitsAt(s: Service, x: TimerId, i: nat)
    requires x in s.lives && i < |s.queue|
  {
    && s.queue[i].Start? && s.queue[i].timer == x
    && i < |s.stamps| && s.stamps[i] + PeriodOf(s.timers, x) == Due(s, x)
    && forall j :: 0 <= j < |s.queue| && j != i ==> s.queue[j].timer != x
  }

  /** A live timer is either filed under the instant that is due, or waits for the
      command that will file it there. */
  ghost predicate Tracked(s: Service, x: TimerId)
    requires x in s.lives
  {
    if Filed(s, x) then Expiry(s, x) == Due(s, x) && NoCommand(s.queue, x) else Awaits(s, x)
  }

  /** The invariant, but for the tracking of the timers in hand. */
  ghost predicate Ok(s: Service, inHand: set<TimerId>) {
    && Shaped(s)
    && (forall x :: x in s.lives ==> Punctual(s.lives[x], s.timers, x))
    && (forall x :: x in s.lives && x !in inHand ==> Tracked(s, x))
    && (forall x :: x in s.lives && x in inHand ==> !Filed(s, x) && NoCommand(s.queue, x))
  }

  // ----- the steps of the daemon -----

  function Without(items: seq<TimerId>, x: TimerId): (r: seq<TimerId>)
    requires x in items
    ensures |r| == |items| - 1
  {
    Remove(items, x)
  }

  lemma WithoutIsGood(items: seq<TimerId>, timers: map<TimerId, Timer>, x: TimerId)
    requires GoodList(items, timers) && x in items
    ensures GoodList(Without(items, x), timers)
    ensures forall y :: y in Without(items, x) <==> y in items && y != x
  {
    var j := IndexOf(items, x);
    RemoveAtMembers(Ring(items, 0), j);
    var keys := KeysOf(items, timers);
    var rest := keys[..j] + keys[j+1..];
    assert Ascending(rest);
    assert forall i :: 0 <= i < |rest| ==> rest[i] == ValueOf(timers, Without(items, x)[i]);
  }

  function With(items: seq<TimerId>, timers: map<TimerId, Timer>, x: TimerId): (r: seq<TimerId>)
    ensures |r| == |items| + 1
  {
    InsertSorted(items, KeysOf(items, timers), x, ValueOf(timers, x))
  }

  lemma WithIsGood(items: seq<TimerId>, timers: map<TimerId, Timer>, x: TimerId)
    requires GoodList(items, timers) && x !in items && x in timers
    ensures GoodList(With(items, timers, x), timers)
    ensures forall y :: y in With(items, timers, x) <==> y in items || y == x
  {
    var keys, key := KeysOf(items, timers), ValueOf(timers, x);
    var pos := InsertPosition(keys, key);
    InsertAtMembers(Ring(items, 0), x, pos);
    InsertKeepsAscending(keys, key);
    assert KeysOf(With(items, timers, x), timers) == keys[..pos] + [key] + keys[pos..];
  }

  function Unfile(s: Service, x: TimerId): Service {
    s.(current := if x in s.current then Without(s.current, x) else s.current,
       overflow := if x in s.overflow then Without(s.overflow, x) else s.overflow)
  }

  /** uxListRemove of a timer's list item. */
  lemma UnfileOk(s: Service, inHand: set<TimerId>, x: TimerId)
    requires Ok(s, inHand) && (x in s.lives && x !in inHand ==> Filed(s, x))
    ensures Ok(Unfile(s, x), inHand + {x}) && !Filed(Unfile(s, x), x)
    ensures x in s.lives && x !in inHand ==> x in s.timers && Expiry(s, x) == Due(s, x)
  {
    if x in s.current {
      WithoutIsGood(s.current, s.timers, x);
    }
    if x in s.overflow {
      WithoutIsGood(s.overflow, s.timers, x);
    }
    var s' := Unfile(s, x);
    forall y | y in s.lives && y !in inHand + {x} ensures Tracked(s', y) {
      TrackedFrame(s, s', y);
    }
  }

  lemma AwaitsFrame(s: Service, s': Service, y: TimerId)
    requires y in s.lives && y in s'.lives && s'.queue == s.queue && s'.stamps == s.stamps
    requires s'.lives[y] == s.lives[y] && PeriodOf(s'.timers, y) == PeriodOf(s.timers, y)
    ensures Awaits(s, y) ==> Awaits(s', y)
  {
    if Awaits(s, y) {
      var i :| 0 <= i < |s.queue| && AwaitsAt(s, y, i);
      assert AwaitsAt(s', y, i);
    }
  }

  /** A timer stays tracked where nothing about it changes but the place of its
      epoch. */
  lemma TrackedFrame(s: Service, s': Service, y: TimerId)
    requires y in s.lives && y in s'.lives && s'.queue == s.queue && s'.stamps == s.stamps
    requires s'.lives[y] == s.lives[y] && PeriodOf(s'.timers, y) == PeriodOf(s.timers, y)
    requires Filed(s', y) == Filed(s, y) && (Filed(s, y) ==> Expiry(s', y) == Expiry(s, y))
    ensures Tracked(s, y) ==> Tracked(s', y)
  {
    AwaitsFrame(s, s', y);
  }

  function Retime(s: Service, x: TimerId, t: Timer): Service {
    s.(timers := s.timers[x := t])
  }

  /** A timer that is in no list may change, but for the period of a live one. */
  lemma RetimeOk(s: Service, inHand: set<TimerId>, x: TimerId, t: Timer)
    requires Ok(s, inHand) && x in s.timers && !Filed(s, x)
    requires 0 < t.period < s.modulus && t.value < s.modulus
    requires x in s.lives ==> x in inHand && t.period == s.timers[x].period && t.autoReload
    ensures Ok(Retime(s, x, t), inHand)
  {
    var s' := Retime(s, x, t);
    assert KeysOf(s.current, s'.timers) == KeysOf(s.current, s.timers);
    assert KeysOf(s.overflow, s'.timers) == KeysOf(s.overflow, s.timers);
    forall y | y in s.lives && y !in inHand ensures Tracked(s', y) {
      TrackedFrame(s, s', y);
    }
  }

  function Slot(s: Service, x: TimerId, where: Decision): Service {
    match where
    case ProcessNow => s
    case ToCurrent => s.(current := With(s.current, s.timers, x))
    case ToOverflow => s.(overflow := With(s.overflow, s.timers, x))
  }

  lemma SlotShaped(s: Service, x: TimerId, where: Decision)
    requires Shaped(s) && x in s.timers && !Filed(s, x) && where != ProcessNow
    ensures Shaped(Slot(s, x, where))
  {
    hide With, GoodList, Ascending, GoodStart;
    if where == ToCurrent {
      WithIsGood(s.current, s.timers, x);
    } else {
      WithIsGood(s.overflow, s.timers, x);
    }
  }

  lemma SlotFrame(s: Service, x: TimerId, where: Decision)
    requires Shaped(s) && x in s.timers && !Filed(s, x) && where != ProcessNow
    ensures forall y :: y in s.timers ==> Filed(Slot(s, x, where), y) == (Filed(s, y) || y == x)
    ensures forall y :: y in s.timers && y != x ==> Expiry(Slot(s, x, where), y) == Expiry(s, y)
    ensures x in Slot(s, x, where).overflow <==> where == ToOverflow
    ensures Slot(s, x, where) == s.(current := Slot(s, x, where).current, overflow := Slot(s, x, where).overflow)
  {
    WithIsGood(if where == ToCurrent then s.current else s.overflow, s.timers, x);
    hide With, GoodList, Ascending, Instant;
  }

  lemma SlotTracks(s: Service, x: TimerId, where: Decision, y: TimerId)
    requires Shaped(s) && x in s.timers && !Filed(s, x) && where != ProcessNow
    requires y in s.lives && y in s.timers
    requires if y != x then Tracked(s, y)
             else NoCommand(s.queue, x)
                  && Due(s, x) == s.epoch + s.timers[x].value + if where == ToOverflow then s.modulus else 0
    ensures Tracked(Slot(s, x, where), y)
  {
    SlotFrame(s, x, where);
    if y != x {
      TrackedFrame(s, Slot(s, x, where), y);
    }
  }

  lemma SlotOk(s: Service, inHand: set<TimerId>, x: TimerId, where: Decision)
    requires Ok(s, inHand) && x in s.timers && !Filed(s, x) && where != ProcessNow
    requires x in s.lives ==>
               x in inHand && Due(s, x) == s.epoch + s.timers[x].value + if where == ToOverflow then s.modulus else 0
    ensures Ok(Slot(s, x, where), inHand - {x})
  {
    hide Shaped, Tracked, Due, Slot, NoCommand, Filed, Expiry;
    SlotShaped(s, x, where);
    SlotFrame(s, x, where);
    forall y | y in s.lives && y !in inHand - {x} ensures Tracked(Slot(s, x, where), y) {
      SlotTracks(s, x, where, y);
    }
  }

  function FileAs(s: Service, x: TimerId, v: nat, where: Decision): Service
    requires x in s.timers
  {
    Slot(Retime(s, x, s.timers[x].(value := v)), x, where)
  }

  /** A timer in hand is filed under the instant that is due. */
  lemma FileOk(s: Service, inHand: set<TimerId>, x: TimerId, v: nat, where: Decision)
    requires Ok(s, inHand) && x in s.timers && !Filed(s, x) && v < s.modulus && where != ProcessNow
    requires x in s.lives ==> x in inHand && Due(s, x) == s.epoch + v + if where == ToOverflow then s.modulus else 0
    ensures Ok(FileAs(s, x, v, where), inHand - {x})
  {
    hide Ok, Slot, Instant;
    Facts(s, inHand, x);
    RetimeOk(s, inHand, x, s.timers[x].(value := v));
    SlotOk(Retime(s, x, s.timers[x].(value := v)), inHand, x, where);
  }

  function Post(s: Service, command: Command, stamp: nat): Service {
    s.(queue := s.queue + [command], stamps := s.stamps + [stamp])
  }

  /** A timer in hand is given a START that carries the instant before. */
  lemma PostOk(s: Service, inHand: set<TimerId>, x: TimerId, time: nat, stamp: nat)
    requires Ok(s, inHand) && x in s.timers && !Filed(s, x) && GoodStart(time, stamp, s.modulus)
    requires x in s.lives ==> x in inHand && stamp + s.timers[x].period == Due(s, x)
    ensures Ok(Post(s, Start(x, time), stamp), inHand - {x})
  {
    var s' := Post(s, Start(x, time), stamp);
    forall y | y in s.lives && y !in inHand - {x} ensures Tracked(s', y) {
      if y == x {
        assert AwaitsAt(s', x, |s.queue|);
      } else {
        assert Tracked(s, y);
        if Awaits(s, y) {
          var i :| 0 <= i < |s.queue| && AwaitsAt(s, y, i);
          assert AwaitsAt(s', y, i);
        }
      }
    }
  }

  function Pop(s: Service): Service
    requires s.queue != [] && s.stamps != []
  {
    s.(queue := s.queue[1..], stamps := s.stamps[1..])
  }

  /** A command taken from the queue for a live timer is the START it waited for. */
  lemma PopOk(s: Service, inHand: set<TimerId>)
    requires Ok(s, inHand) && s.queue != []
    ensures s.stamps != [] && Ok(Pop(s), inHand + {s.queue[0].timer})
    ensures var x := s.queue[0].timer;
            x in s.timers && (x in s.lives ==>
              x !in inHand && !Filed(s, x) && NoCommand(Pop(s).queue, x) && s.queue[0].Start?
              && s.stamps[0] + s.timers[x].period == Due(s, x))
  {
    var x, s' := s.queue[0].timer, Pop(s);
    if x in s.lives {
      assert Tracked(s, x);
      var i :| 0 <= i < |s.queue| && AwaitsAt(s, x, i);
      assert i == 0;
    }
    forall y | y in s.lives && y !in inHand + {x} ensures Tracked(s', y) {
      assert Tracked(s, y);
      if Awaits(s, y) {
        var i :| 0 <= i < |s.queue| && AwaitsAt(s, y, i);
        assert AwaitsAt(s', y, i - 1);
      }
    }
  }

  /** The callback of a timer is called. */
  function Fire(s: Service, x: TimerId, at: nat): Service {
    s.(callbacks := s.callbacks + [x],
       lives := if x in s.lives then s.lives[x := s.lives[x].(calls := s.lives[x].calls + [at])] else s.lives)
  }

  /** A callback that does not precede the instant that is due. */
  lemma FireOk(s: Service, inHand: set<TimerId>, x: TimerId, at: nat)
    requires Ok(s, inHand) && x in s.timers
    requires x in s.lives ==> x in inHand && Due(s, x) <= at
    ensures Ok(Fire(s, x, at), inHand)
    ensures x in s.lives ==> Due(Fire(s, x, at), x) == Due(s, x) + s.timers[x].period
  {
    var s' := Fire(s, x, at);
    assert Shaped(s') && |s'.stamps| == |s'.queue|;
    hide Shaped;
    forall y | y in s'.lives ensures Punctual(s'.lives[y], s'.timers, y) {
      assert Punctual(s.lives[y], s.timers, y);
    }
    forall y | y in s'.lives && y !in inHand ensures Tracked(s', y) {
      TrackedFrame(s, s', y);
    }
  }

  lemma NextEpoch(epoch: nat, m: nat)
    requires m > 0 && epoch % m == 0
    ensures (epoch + m) % m == 0
  {
    var r, d := (epoch + m) % m, epoch / m + 1 - (epoch + m) / m;
    assert d * m == (epoch / m + 1) * m - (epoch + m) / m * m == r;
    Multiples(d, m);
  }

  function Switch(s: Service): Service {
    s.(current := s.overflow, overflow := [], epoch := s.epoch + s.modulus)
  }

  /** The lists change roles when the tick count wraps and the first is drained. */
  lemma SwitchOk(s: Service, inHand: set<TimerId>)
    requires Ok(s, inHand) && s.current == []
    ensures Ok(Switch(s), inHand)
  {
    var s' := Switch(s);
    NextEpoch(s.epoch, s.modulus);
    forall y | y in s.lives && y !in inHand ensures Tracked(s', y) {
      TrackedFrame(s, s', y);
    }
  }

  function Forget(s: Service, x: TimerId): Service {
    s.(lives := map y | y in s.lives && y != x :: s.lives[y])
  }

  predicate GoodCommand(s: Service, command: Command) {
    && command.timer in s.timers
    && (command.ChangePeriod? ==> 0 < command.period < s.modulus)
  }

  /** A command sent by a task ends the life of its timer. */
  lemma SendOk(s: Service, command: Command, stamp: nat)
    requires Ok(s, {}) && GoodCommand(s, command)
    requires command.Start? ==> GoodStart(command.time, stamp, s.modulus)
    ensures Ok(Post(Forget(s, command.timer), command, stamp), {})
  {
    var s' := Post(Forget(s, command.timer), command, stamp);
    forall y | y in s'.lives ensures Tracked(s', y) {
      assert Tracked(s, y);
      if Awaits(s, y) {
        var i :| 0 <= i < |s.queue| && AwaitsAt(s, y, i);
        assert AwaitsAt(s', y, i);
      }
    }
  }

  function Begin(s: Service, x: TimerId, origin: nat): Service {
    s.(lives := s.lives[x := Life(origin, multiset(s.callbacks)[x], [])])
  }

  /** A life may begin for an auto-reload timer that is in no list and has no
      command pending. */
  lemma BeginOk(s: Service, inHand: set<TimerId>, x: TimerId, origin: nat)
    requires Ok(s, inHand) && x in s.timers && s.timers[x].autoReload && !Filed(s, x) && NoCommand(s.queue, x)
    ensures Ok(Begin(s, x, origin), inHand + {x})
    ensures Due(Begin(s, x, origin), x) == origin + s.timers[x].period
  {
    var s' := Begin(s, x, origin);
    forall y | y in s'.lives && y !in inHand + {x} ensures Tracked(s', y) {
      TrackedFrame(s, s', y);
    }
    assert Instant(origin, s.timers[x].period, 1) == Instant(origin, s.timers[x].period, 0) + s.timers[x].period;
  }

  // ----- draining -----

  /** What is left of the epoch, summed over a list of timers. */
  ghost function Left(items: seq<TimerId>, timers: map<TimerId, Timer>, m: nat): (n: nat)
    requires forall x :: x in items ==> ValueOf(timers, x) < m
  {
    if items == [] then 0 else m - ValueOf(timers, items[0]) + Left(items[1..], timers, m)
  }

  lemma {:induction false} LeftSplits(a: seq<TimerId>, b: seq<TimerId>, timers: map<TimerId, Timer>, m: nat)
    requires forall x :: x in a + b ==> ValueOf(timers, x) < m
    ensures forall x :: x in a || x in b ==> x in a + b
    ensures Left(a + b, timers, m) == Left(a, timers, m) + Left(b, timers, m)
  {
    if a == [] {
      assert a + b == b;
    } else {
      assert (a + b)[1..] == a[1..] + b;
      LeftSplits(a[1..], b, timers, m);
    }
  }

  lemma {:induction false} LeftFrame(items: seq<TimerId>, timers: map<TimerId, Timer>, timers': map<TimerId, Timer>,
      m: nat)
    requires forall x :: x in items ==> ValueOf(timers, x) == ValueOf(timers', x) < m
    ensures Left(items, timers, m) == Left(items, timers', m)
  {
    if items != [] {
      LeftFrame(items[1..], timers, timers', m);
    }
  }

  /** Filing a timer again under a later time leaves less than there was before it
      was removed. */
  lemma LeftFalls(items: seq<TimerId>, timers: map<TimerId, Timer>, x: TimerId, timers': map<TimerId, Timer>, m: nat)
    requires items != [] && x == items[0] && Distinct(items) && x in timers'
    requires forall y :: y in items ==> ValueOf(timers, y) < m
    requires timers' == timers[x := timers'[x]] && ValueOf(timers, x) < ValueOf(timers', x) < m
    ensures forall y :: y in With(items[1..], timers', x) ==> y in items && ValueOf(timers', y) < m
    ensures Left(With(items[1..], timers', x), timers', m) < Left(items, timers, m)
  {
    var rest := items[1..];
    assert forall y :: y in rest ==> y in items && y != x && ValueOf(timers', y) == ValueOf(timers, y);
    hide With, Distinct, InsertPosition, KeysOf, Left, ValueOf;
    var a, b := WithSplits(rest, timers', x);
    LeftFrame(rest, timers, timers', m);
    LeftWith(a, b, x, timers', m);
    LeftHead(items, timers, m);
  }

  lemma WithSplits(items: seq<TimerId>, timers: map<TimerId, Timer>, x: TimerId)
    returns (a: seq<TimerId>, b: seq<TimerId>)
    ensures a + b == items && With(items, timers, x) == a + [x] + b
  {
    var pos := InsertPosition(KeysOf(items, timers), ValueOf(timers, x));
    a, b := items[..pos], items[pos..];
  }

  lemma LeftHead(items: seq<TimerId>, timers: map<TimerId, Timer>, m: nat)
    requires items != [] && forall x :: x in items ==> ValueOf(timers, x) < m
    ensures Left(items, timers, m) == m - ValueOf(timers, items[0]) + Left(items[1..], timers, m)
  {
  }

  lemma LeftWith(a: seq<TimerId>, b: seq<TimerId>, x: TimerId, timers: map<TimerId, Timer>, m: nat)
    requires forall y :: y in a + b || y == x ==> ValueOf(timers, y) < m
    ensures forall y :: y in a + [x] + b ==> y in a + b || y == x
    ensures Left(a + [x] + b, timers, m) == Left(a + b, timers, m) + m - ValueOf(timers, x)
  {
    LeftSplits(a, b, timers, m);
    LeftSplits(a + [x], b, timers, m);
    LeftSplits(a, [x], timers, m);
  }

  /** The auto-reload timers in a list. */
  function Reloads(items: seq<TimerId>, timers: map<TimerId, Timer>): (n: nat)
    ensures n <= |items|
  {
    if items == [] then 0 else (if Reloading(timers, items[0]) then 1 else 0) + Reloads(items[1..], timers)
  }

  predicate Reloading(timers: map<TimerId, Timer>, x: TimerId) {
    x in timers && timers[x].autoReload
  }

  lemma {:induction false} ReloadsWith(
    a: seq<TimerId>, b: seq<TimerId>, x: TimerId, timers: map<TimerId, Timer>, timers': map<TimerId, Timer>)
    requires forall y :: y in a + b ==> Reloading(timers', y) == Reloading(timers, y)
    ensures Reloads(a + [x] + b, timers') == Reloads(a + b, timers) + if Reloading(timers', x) then 1 else 0
  {
    if a == [] {
      assert a + [x] + b == [x] + b && a + b == b && ([x] + b)[1..] == b;
      ReloadsFrame(b, timers, timers');
    } else {
      assert (a + [x] + b)[1..] == a[1..] + [x] + b && (a + b)[1..] == a[1..] + b;
      assert a[0] in a + b;
      ReloadsWith(a[1..], b, x, timers, timers');
    }
  }

  lemma {:induction false} ReloadsFrame(items: seq<TimerId>, timers: map<TimerId, Timer>, timers': map<TimerId, Timer>)
    requires forall y :: y in items ==> Reloading(timers', y) == Reloading(timers, y)
    ensures Reloads(items, timers') == Reloads(items, timers)
  {
    if items != [] {
      ReloadsFrame(items[1..], timers, timers');
    }
  }

  /** Only the live timers in hand matter. */
  lemma SameHand(s: Service, inHand: set<TimerId>, inHand': set<TimerId>)
    requires Ok(s, inHand) && forall x :: x in s.lives ==> (x in inHand <==> x in inHand')
    ensures Ok(s, inHand')
  {
  }

  lemma Facts(s: Service, inHand: set<TimerId>, x: TimerId)
    requires Ok(s, inHand) && x in s.timers
    ensures s.modulus > 1 && s.epoch % s.modulus == 0
    ensures 0 < s.timers[x].period < s.modulus && s.timers[x].value < s.modulus
    ensures x in s.lives ==> s.timers[x].autoReload
    ensures forall y :: y in s.lives ==> y in s.timers
  {
  }

  // ----- the daemon's work on one timer -----

  /** One iteration of prvSwitchTimerLists, at the absolute time at. */
  function DrainStep(s: Service, at: nat): Service
    requires s.modulus > 0 && s.current != [] && s.current[0] in s.timers
    requires s.timers[s.current[0]].value < s.modulus && s.timers[s.current[0]].period < s.modulus
  {
    var x := s.current[0];
    var t := s.timers[x];
    var reload := WrapAdd(t.value, t.period, s.modulus);
    var fired := Fire(Unfile(s, x), x, at);
    if !t.autoReload then fired
    else if reload > t.value then FileAs(fired, x, reload, ToCurrent)
    else Post(fired, Start(x, t.value), s.epoch + t.value)
  }

  /** An iteration keeps the invariant: the timer's callback is not early, and the
      timer is filed again, or sent a START, for its next instant. */
  lemma DrainStepOk(s: Service, inHand: set<TimerId>, at: nat)
    requires Ok(s, inHand) && s.current != [] && s.epoch + s.modulus <= at
    ensures s.current[0] in s.timers && s.timers[s.current[0]].value < s.modulus
            && s.timers[s.current[0]].period < s.modulus
    ensures Ok(DrainStep(s, at), inHand)
  {
    hide Ok;
    HeadIsFiled(s, inHand);
    var x := s.current[0];
    var t := s.timers[x];
    var reload := WrapAdd(t.value, t.period, s.modulus);
    UnfileOk(s, inHand, x);
    FireOk(Unfile(s, x), inHand + {x}, x, at);
    var fired := Fire(Unfile(s, x), x, at);
    if t.autoReload {
      if reload > t.value {
        FileOk(fired, inHand + {x}, x, reload, ToCurrent);
      } else {
        PostOk(fired, inHand + {x}, x, t.value, s.epoch + t.value);
      }
    }
    SameHand(DrainStep(s, at), if t.autoReload then inHand + {x} - {x} else inHand + {x}, inHand);
  }

  lemma HeadIsFiled(s: Service, inHand: set<TimerId>)
    requires Ok(s, inHand) && s.current != []
    ensures var x := s.current[0];
            && x in s.timers && x !in s.overflow && 0 < s.timers[x].period < s.modulus && s.timers[x].value < s.modulus
            && (x in s.lives ==> x !in inHand && s.timers[x].autoReload && Due(s, x) == s.epoch + s.timers[x].value)
    ensures s.modulus > 0 && GoodStart(s.timers[s.current[0]].value, s.epoch + s.timers[s.current[0]].value, s.modulus)
  {
    assert s.current[0] in s.lives && s.current[0] !in inHand ==> Tracked(s, s.current[0]);
  }

  /** What an iteration leaves in the list that is being drained. */
  lemma DrainStepCurrent(s: Service, at: nat, t: Timer)
    requires s.modulus > 0 && s.current != [] && s.current[0] in s.timers && t == s.timers[s.current[0]]
    requires t.value < s.modulus && t.period < s.modulus && s.current[0] !in s.overflow
    ensures DrainStep(s, at).overflow == s.overflow && DrainStep(s, at).modulus == s.modulus
    ensures DrainStep(s, at).lives == Fire(s, s.current[0], at).lives
    ensures DrainStep(s, at).callbacks == s.callbacks + [s.current[0]] && DrainStep(s, at).epoch == s.epoch
    ensures var x, reload, s' := s.current[0], WrapAdd(t.value, t.period, s.modulus), DrainStep(s, at);
            if t.autoReload && reload > t.value then
              && s'.timers == s.timers[x := t.(value := reload)]
              && s'.current == With(s.current[1..], s'.timers, x) && s'.queue == s.queue && s'.stamps == s.stamps
            else
              && s'.timers == s.timers && s'.current == s.current[1..]
              && s'.queue == s.queue + (if t.autoReload then [Start(x, t.value)] else [])
              && s'.stamps == s.stamps + if t.autoReload then [s.epoch + t.value] else []
  {
    var x := s.current[0];
    assert Without(s.current, x) == s.current[1..];
    var fired := Fire(Unfile(s, x), x, at);
    assert fired.timers == s.timers && fired.current == s.current[1..];
    assert fired.queue == s.queue && fired.stamps == s.stamps;
    assert fired.overflow == s.overflow && fired.lives == Fire(s, x, at).lives;
    assert fired.callbacks == s.callbacks + [x] && fired.epoch == s.epoch;
    hide Fire, Unfile, With;
  }

  /** An iteration makes progress, although it may file the timer again in the very
      list that is being drained. */
  lemma DrainStepFalls(s: Service, at: nat)
    requires Shaped(s) && s.current != []
    ensures var s' := DrainStep(s, at);
            && |s'.queue| + Reloads(s'.current, s'.timers) == |s.queue| + Reloads(s.current, s.timers)
            && s.queue <= s'.queue && s.stamps <= s'.stamps
            && (forall x :: x in s'.current ==> x in s.current && ValueOf(s'.timers, x) < s.modulus)
            && Left(s'.current, s'.timers, s.modulus) < Left(s.current, s.timers, s.modulus)
  {
    var t := s.timers[s.current[0]];
    DrainStepCurrent(s, at, t);
    assert forall y :: y in s.current ==> y in s.timers && ValueOf(s.timers, y) < s.modulus;
    assert Distinct(s.current) && t.period < s.modulus && t.value < s.modulus;
    hide DrainStep, Shaped, GoodList, Distinct, Fire, Unfile, FileAs, Post, Without, With, KeysOf;
    if t.autoReload && WrapAdd(t.value, t.period, s.modulus) > t.value {
      LeftFalls(s.current, s.timers, s.current[0], DrainStep(s, at).timers, s.modulus);
      RefiledReloads(s.current, s.timers, s.current[0], DrainStep(s, at).timers);
    }
  }

  lemma RefiledReloads(items: seq<TimerId>, timers: map<TimerId, Timer>, x: TimerId, timers': map<TimerId, Timer>)
    requires items != [] && x == items[0] && x in timers && x in timers'
    requires timers' == timers[x := timers'[x]] && timers'[x].autoReload == timers[x].autoReload
    ensures Reloads(With(items[1..], timers', x), timers') == Reloads(items, timers)
  {
    var a, b := WithSplits(items[1..], timers', x);
    ReloadsWith(a, b, x, timers, timers');
    hide With;
  }

  /** prvProcessExpiredTimer on the first timer of the current list, when the tick
      count is now. */
  function ExpireStep(s: Service, now: nat): Service
    requires s.modulus > 0 && now < s.modulus && s.current != [] && s.current[0] in s.timers
    requires s.timers[s.current[0]].value < s.modulus && s.timers[s.current[0]].period < s.modulus
  {
    Reload(Fire(Unfile(s, s.current[0]), s.current[0], s.epoch + now), s.current[0], now)
  }

  function Reload(s: Service, x: TimerId, now: nat): Service
    requires s.modulus > 0 && now < s.modulus && x in s.timers
    requires s.timers[x].value < s.modulus && s.timers[x].period < s.modulus
  {
    var t := s.timers[x];
    var reload := WrapAdd(t.value, t.period, s.modulus);
    var decision := Decide(reload, now, t.value, t.period, s.modulus);
    if !t.autoReload then Retime(s, x, t.(active := false))
    else if decision == ProcessNow then Post(FileAs(s, x, reload, decision), Start(x, t.value), s.epoch + t.value)
    else FileAs(s, x, reload, decision)
  }

  lemma ExpireStepOk(s: Service, now: nat)
    requires Ok(s, {}) && now < s.modulus && s.current != []
    requires s.current[0] in s.timers ==> s.timers[s.current[0]].value <= now
    ensures s.current[0] in s.timers && s.timers[s.current[0]].value < s.modulus
            && s.timers[s.current[0]].period < s.modulus
    ensures Ok(ExpireStep(s, now), {})
  {
    hide Ok, Reload;
    HeadIsFiled(s, {});
    var x := s.current[0];
    UnfileOk(s, {}, x);
    assert {} + {x} == {x};
    FireOk(Unfile(s, x), {x}, x, s.epoch + now);
    ReloadOk(Fire(Unfile(s, x), x, s.epoch + now), x, now);
  }

  lemma ReloadOk(s: Service, x: TimerId, now: nat)
    requires Ok(s, {x}) && now < s.modulus && x in s.timers && !Filed(s, x)
    requires s.timers[x].period < s.modulus && s.timers[x].value <= now
    requires x in s.lives ==> s.timers[x].autoReload && s.epoch + s.timers[x].value + s.timers[x].period == Due(s, x)
    ensures Ok(Reload(s, x, now), {})
  {
    hide Ok, With, Instant;
    Facts(s, {x}, x);
    var t := s.timers[x];
    var reload := WrapAdd(t.value, t.period, s.modulus);
    var decision := Decide(reload, now, t.value, t.period, s.modulus);
    DecisionIsExact(t.value, t.period, s.epoch, now, s.modulus);
    assert {x} - {x} == {};
    assert decision != ProcessNow ==>
      s.epoch + t.value + t.period == s.epoch + reload + if decision == ToOverflow then s.modulus else 0;
    hide Decide;
    if !t.autoReload {
      RetimeOk(s, {x}, x, t.(active := false));
      SameHand(Retime(s, x, t.(active := false)), {x}, {});
    } else if decision == ProcessNow {
      FileNowOk(s, {x}, x, reload, t.value, s.epoch + t.value);
    } else {
      FileOk(s, {x}, x, reload, decision);
    }
  }

  /** A timer that must be processed at once is sent a START instead. */
  lemma FileNowOk(s: Service, inHand: set<TimerId>, x: TimerId, v: nat, time: nat, stamp: nat)
    requires Ok(s, inHand) && x in s.timers && !Filed(s, x) && v < s.modulus && GoodStart(time, stamp, s.modulus)
    requires x in s.lives ==> x in inHand && s.timers[x].autoReload && stamp + s.timers[x].period == Due(s, x)
    ensures Ok(Post(FileAs(s, x, v, ProcessNow), Start(x, time), stamp), inHand - {x})
  {
    RetimeOk(s, inHand, x, s.timers[x].(value := v));
    PostOk(FileAs(s, x, v, ProcessNow), inHand, x, time, stamp);
  }

  /** The START branch of prvProcessReceivedCommands, when the tick count is now,
      for a command that carries the tick count of the stamp. */
  function StartStep(s: Service, x: TimerId, time: nat, stamp: nat, now: nat): Service
    requires s.modulus > 0 && now < s.modulus && time < s.modulus && x in s.timers && s.timers[x].period < s.modulus
  {
    var t := s.timers[x].(active := true);
    var next := WrapAdd(time, t.period, s.modulus);
    var decision := Decide(next, now, time, t.period, s.modulus);
    if decision == ProcessNow then StartNow(Retime(s, x, t), x, next, stamp, now)
    else FileAs(Retime(s, x, t), x, next, decision)
  }

  function StartNow(s: Service, x: TimerId, next: nat, stamp: nat, now: nat): Service
    requires x in s.timers
  {
    var fired := Fire(FileAs(s, x, next, ProcessNow), x, s.epoch + now);
    if s.timers[x].autoReload then Post(fired, Start(x, next), stamp + s.timers[x].period) else fired
  }

  lemma StartStepOk(s: Service, x: TimerId, time: nat, stamp: nat, now: nat)
    requires Ok(s, {x}) && now < s.modulus && x in s.timers && !Filed(s, x) && s.timers[x].period < s.modulus
    requires GoodStart(time, stamp, s.modulus) && stamp <= s.epoch + now
    requires Timely(s.epoch + now - stamp, s.timers[x].period, s.modulus)
    requires x in s.lives ==> stamp + s.timers[x].period == Due(s, x)
    ensures Ok(StartStep(s, x, time, stamp, now), {})
  {
    hide Ok, Decide, With, StartNow, FileAs, Instant;
    Facts(s, {x}, x);
    var t := s.timers[x].(active := true);
    assert time < s.modulus && {x} - {x} == {};
    hide GoodStart;
    var next := WrapAdd(time, t.period, s.modulus);
    var decision := Decide(next, now, time, t.period, s.modulus);
    StartDecision(time, stamp, t.period, s.epoch, now, s.modulus);
    RetimeOk(s, {x}, x, t);
    var s1 := Retime(s, x, t);
    assert x in s1.lives ==> Due(s1, x) == Due(s, x);
    if decision != ProcessNow {
      FileOk(s1, {x}, x, next, decision);
    } else {
      StartNowOk(s1, x, next, stamp, now);
    }
  }

  lemma StartNowOk(s: Service, x: TimerId, next: nat, stamp: nat, now: nat)
    requires Ok(s, {x}) && x in s.timers && !Filed(s, x) && s.timers[x].period < s.modulus
    requires GoodStart(next, stamp + s.timers[x].period, s.modulus) && stamp + s.timers[x].period <= s.epoch + now
    requires x in s.lives ==> stamp + s.timers[x].period == Due(s, x)
    ensures Ok(StartNow(s, x, next, stamp, now), {})
  {
    hide Ok, Instant, With;
    Facts(s, {x}, x);
    assert next < s.modulus && {x} - {x} == {};
    hide GoodStart;
    FireNowOk(s, x, next, now);
    var fired := Fire(FileAs(s, x, next, ProcessNow), x, s.epoch + now);
    if s.timers[x].autoReload {
      PostOk(fired, {x}, x, next, stamp + s.timers[x].period);
    } else {
      SameHand(fired, {x}, {});
    }
  }

  lemma FireNowOk(s: Service, x: TimerId, next: nat, now: nat)
    requires Ok(s, {x}) && x in s.timers && !Filed(s, x) && next < s.modulus
    requires x in s.lives ==> Due(s, x) <= s.epoch + now
    ensures var fired := Fire(FileAs(s, x, next, ProcessNow), x, s.epoch + now);
            && Ok(fired, {x}) && !Filed(fired, x)
            && (x in s.lives ==> Due(fired, x) == Due(s, x) + s.timers[x].period)
  {
    hide Ok, Instant, With;
    Facts(s, {x}, x);
    RetimeOk(s, {x}, x, s.timers[x].(value := next));
    var filed := FileAs(s, x, next, ProcessNow);
    FireOk(filed, {x}, x, s.epoch + now);
  }

  /** The decision taken for a START that is decided rightly. */
  lemma StartDecision(time: nat, stamp: nat, period: nat, epoch: nat, now: nat, m: nat)
    requires m > 0 && epoch % m == 0 && GoodStart(time, stamp, m) && stamp <= epoch + now
    requires now < m && 0 < period < m && Timely(epoch + now - stamp, period, m)
    ensures var next := WrapAdd(time, period, m);
            var decision := Decide(next, now, time, period, m);
            && next < m && GoodStart(next, stamp + period, m)
            && (decision == ProcessNow <==> stamp + period <= epoch + now)
            && (decision != ProcessNow ==> stamp + period == epoch + next + if decision == ToOverflow then m else 0)
  {
    DecisionIsRightExactlyWhen(stamp, time, period, epoch, now, m);
    if epoch + now - stamp < m {
      StampIsLastInstant(stamp, time, epoch, now, m);
      DecisionIsExact(time, period, epoch, now, m);
    }
    NextEpoch(stamp - time, m);
  }

  // ----- exactly once, at the right instant -----

  lemma NextMultiple(k: nat, p: nat)
    ensures (k + 1) * p == k * p + p
  {
  }

  /** A live timer started at c with period p that has been called back k times is
      filed under the absolute time of its next instant, c + (k+1)p, or waits for a
      START that carries the instant before; and none of its callbacks came early. */
  ghost predicate OnInstants(s: Service, x: TimerId) {
    && x in s.lives && x in s.timers
    && var c, p, k := s.lives[x].origin, s.timers[x].period, |s.lives[x].calls|;
       && (Filed(s, x) ==> Expiry(s, x) == c + (k + 1) * p)
       && (!Filed(s, x) ==> exists i ::
             && 0 <= i < |s.queue| && i < |s.stamps|
             && s.queue[i].Start? && s.queue[i].timer == x && s.stamps[i] == c + k * p)
       && (forall j :: 0 <= j < k ==> s.lives[x].calls[j] >= c + (j + 1) * p)
  }

  lemma FiresOncePerInstant(s: Service, x: TimerId)
    requires Ok(s, {}) && x in s.lives
    ensures OnInstants(s, x)
  {
    var c, p, k := s.lives[x].origin, PeriodOf(s.timers, x), |s.lives[x].calls|;
    assert Tracked(s, x) && Punctual(s.lives[x], s.timers, x);
    InstantIsMultiple(c, p, k + 1);
    NextMultiple(k, p);
    if !Filed(s, x) {
      var i :| 0 <= i < |s.queue| && AwaitsAt(s, x, i);
      assert s.stamps[i] == c + k * p;
    }
    forall j | 0 <= j < k ensures s.lives[x].calls[j] >= c + (j + 1) * p {
      InstantIsMultiple(c, p, j + 1);
    }
  }
}

/** What the timer service does in one go, as functions on its state, and what every
    such step keeps: no life is broken off, no timer is touched that is not concerned,
    and the callbacks made are accounted for. */
module TimerSteps {
  import opened Arithmetic
  import opened RoundRobin
  import opened Periods
  import opened TimerState

  // ----- what steps keep -----

  /** A live timer goes on: it keeps its origin and its period, and only gains
      callbacks. */
  ghost predicate GoesOn(s: Service, s': Service, x: TimerId)
    requires x in s.lives
  {
    && x in s'.lives && s'.lives[x].origin == s.lives[x].origin && s'.lives[x].before == s.lives[x].before
    && s.lives[x].calls <= s'.lives[x].calls
    && PeriodOf(s'.timers, x) == PeriodOf(s.timers, x)
  }

  /** The log only grows, and every life goes on. */
  ghost predicate Kept(s: Service, s': Service) {
    s.callbacks <= s'.callbacks && forall x :: x in s.lives ==> GoesOn(s, s', x)
  }

  lemma KeptTwice(s: Service, s1: Service, s2: Service)
    requires Kept(s, s1) && Kept(s1, s2)
    ensures Kept(s, s2)
  {
  }

  /** Nothing has happened to timer y. */
  ghost predicate Alone(s: Service, s': Service, y: TimerId) {
    && (y in s'.timers <==> y in s.timers) && (y in s.timers ==> s'.timers[y] == s.timers[y])
    && (y in s'.current <==> y in s.current) && (y in s'.overflow <==> y in s.overflow)
    && (y in s'.lives <==> y in s.lives) && (y in s.lives ==> s'.lives[y] == s.lives[y])
    && multiset(s'.callbacks)[y] == multiset(s.callbacks)[y]
    && (NoCommand(s'.queue, y) <==> NoCommand(s.queue, y))
  }

  /** Nothing has happened to any timer but x, and the epoch is the same. */
  ghost predicate OnlyConcerns(s: Service, s': Service, x: TimerId) {
    && s'.modulus == s.modulus && s'.epoch == s.epoch
    && forall y :: y != x ==> Alone(s, s', y)
  }

  lemma OnlyConcernsTwice(s: Service, s1: Service, s2: Service, x: TimerId)
    requires OnlyConcerns(s, s1, x) && OnlyConcerns(s1, s2, x)
    ensures OnlyConcerns(s, s2, x)
  {
    forall y | y != x ensures Alone(s, s2, y) {
      assert Alone(s, s1, y) && Alone(s1, s2, y);
    }
  }

  lemma Chain(s: Service, s1: Service, s2: Service, s3: Service, x: TimerId)
    requires Kept(s, s1) && Kept(s1, s2) && Kept(s2, s3)
    requires OnlyConcerns(s, s1, x) && OnlyConcerns(s1, s2, x) && OnlyConcerns(s2, s3, x)
    ensures Kept(s, s3) && OnlyConcerns(s, s3, x)
  {
    hide Kept, OnlyConcerns;
    KeptTwice(s, s1, s2);
    KeptTwice(s, s2, s3);
    OnlyConcernsTwice(s, s1, s2, x);
    OnlyConcernsTwice(s, s2, s3, x);
  }

  /** The log of callbacks holds as many calls of each live timer as its life does. */
  ghost predicate Logged(callbacks: seq<TimerId>, lives: map<TimerId, Life>) {
    forall x :: x in lives ==> multiset(callbacks)[x] == lives[x].before + |lives[x].calls|
  }

  lemma LogGrows(callbacks: seq<TimerId>, lives: map<TimerId, Life>, x: TimerId, at: nat)
    requires Logged(callbacks, lives)
    ensures Logged(callbacks + [x], if x in lives then lives[x := lives[x].(calls := lives[x].calls + [at])] else lives)
  {
    assert multiset(callbacks + [x]) == multiset(callbacks) + multiset{x};
  }

  /** The queue has room for what it holds, the log fits the lives, and no command, no
      life and no callback is later than now. */
  ghost predicate Accounted(s: Service, now: nat, room: nat) {
    && |s.queue| <= room && (forall i :: 0 <= i < |s.stamps| ==> s.stamps[i] <= now)
    && Logged(s.callbacks, s.lives)
    && (forall x :: x in s.lives ==> s.lives[x].origin <= now)
    && (forall x, j :: x in s.lives && 0 <= j < |s.lives[x].calls| ==> s.lives[x].calls[j] <= now)
  }

  lemma AccountedLater(s: Service, now: nat, later: nat, room: nat)
    requires Accounted(s, now, room) && now <= later
    ensures Accounted(s, later, room)
  {
  }

  // ----- the small steps -----

  lemma FireKeeps(s: Service, x: TimerId, at: nat)
    ensures Kept(s, Fire(s, x, at)) && OnlyConcerns(s, Fire(s, x, at), x)
  {
    assert multiset(s.callbacks + [x]) == multiset(s.callbacks) + multiset{x};
  }

  lemma FireAccounted(s: Service, x: TimerId, at: nat, room: nat)
    requires Accounted(s, at, room)
    ensures Accounted(Fire(s, x, at), at, room)
  {
    LogGrows(s.callbacks, s.lives, x, at);
  }

  lemma RetimeKeeps(s: Service, x: TimerId, t: Timer)
    requires x in s.timers && (x in s.lives ==> t.period == s.timers[x].period)
    ensures Kept(s, Retime(s, x, t)) && OnlyConcerns(s, Retime(s, x, t), x)
  {
  }

  lemma WithMembers(items: seq<TimerId>, timers: map<TimerId, Timer>, x: TimerId)
    ensures forall y :: y in With(items, timers, x) <==> y in items || y == x
  {
    var a, b := WithSplits(items, timers, x);
    hide With;
  }

  lemma SlotKeeps(s: Service, x: TimerId, where: Decision)
    ensures Kept(s, Slot(s, x, where)) && OnlyConcerns(s, Slot(s, x, where), x)
  {
    WithMembers(s.current, s.timers, x);
    WithMembers(s.overflow, s.timers, x);
    hide With;
  }

  lemma FileKeeps(s: Service, x: TimerId, v: nat, where: Decision)
    requires x in s.timers
    ensures Kept(s, FileAs(s, x, v, where)) && OnlyConcerns(s, FileAs(s, x, v, where), x)
  {
    hide Slot, Kept, OnlyConcerns;
    var s1 := Retime(s, x, s.timers[x].(value := v));
    RetimeKeeps(s, x, s.timers[x].(value := v));
    SlotKeeps(s1, x, where);
    KeptTwice(s, s1, FileAs(s, x, v, where));
    OnlyConcernsTwice(s, s1, FileAs(s, x, v, where), x);
  }

  /** Filing changes nothing that is accounted for. */
  lemma FileAccounted(s: Service, x: TimerId, v: nat, where: Decision)
    requires x in s.timers
    ensures var s' := FileAs(s, x, v, where);
            && s'.queue == s.queue && s'.stamps == s.stamps && s'.callbacks == s.callbacks && s'.lives == s.lives
            && s'.epoch == s.epoch && s'.modulus == s.modulus
            && x in s'.timers && s'.timers[x] == s.timers[x].(value := v)
  {
    hide With;
  }

  lemma AccountedSame(s: Service, s': Service, now: nat, room: nat)
    requires Accounted(s, now, room)
    requires s'.queue == s.queue && s'.stamps == s.stamps && s'.callbacks == s.callbacks && s'.lives == s.lives
    ensures Accounted(s', now, room)
  {
  }

  lemma PostKeeps(s: Service, command: Command, stamp: nat)
    ensures Kept(s, Post(s, command, stamp)) && OnlyConcerns(s, Post(s, command, stamp), command.timer)
  {
    forall y | y != command.timer ensures NoCommand(s.queue + [command], y) <==> NoCommand(s.queue, y) {
      assert forall i :: 0 <= i < |s.queue| ==> (s.queue + [command])[i] == s.queue[i];
    }
  }

  lemma BeginKeeps(s: Service, x: TimerId, origin: nat)
    requires x !in s.lives
    ensures Kept(s, Begin(s, x, origin)) && OnlyConcerns(s, Begin(s, x, origin), x)
  {
  }

  lemma UnfileKeeps(s: Service, x: TimerId)
    requires Distinct(s.current) && Distinct(s.overflow)
    ensures Kept(s, Unfile(s, x)) && OnlyConcerns(s, Unfile(s, x), x)
  {
    WithoutMembers(s.current, x);
    WithoutMembers(s.overflow, x);
    hide Without, Distinct;
  }

  lemma ListsAreDistinct(s: Service, inHand: set<TimerId>)
    requires Ok(s, inHand)
    ensures Distinct(s.current) && Distinct(s.overflow)
  {
  }

  lemma UnfileSame(s: Service, x: TimerId)
    ensures Unfile(s, x) == s.(current := Unfile(s, x).current, overflow := Unfile(s, x).overflow)
  {
    hide Without;
  }

  lemma WithoutMembers(items: seq<TimerId>, x: TimerId)
    requires Distinct(items)
    ensures x in items ==> forall y :: y in Without(items, x) <==> y in items && y != x
  {
    if x in items {
      RemoveAtMembers(Ring(items, 0), IndexOf(items, x));
    }
  }

  // ----- draining -----

  ghost function LeftOf(s: Service): nat {
    if Shaped(s) then Left(s.current, s.timers, s.modulus) else 0
  }

  lemma DrainStepShrinks(s: Service, at: nat)
    requires Shaped(s) && s.current != []
    ensures s.current[0] in s.timers && s.timers[s.current[0]].value < s.modulus
            && s.timers[s.current[0]].period < s.modulus
    ensures LeftOf(DrainStep(s, at)) < LeftOf(s)
  {
    assert s.current[0] in s.current;
    DrainStepFalls(s, at);
    DrainStepCurrent(s, at, s.timers[s.current[0]]);
    hide DrainStep, Left, Reloads;
  }

  /** The loop of prvSwitchTimerLists, at the absolute time at. */
  ghost function Drained(s: Service, at: nat): Service
    decreases LeftOf(s)
  {
    if !Shaped(s) || s.current == [] then s
    else
      DrainStepShrinks(s, at);
      Drained(DrainStep(s, at), at)
  }

  lemma DrainMore(s: Service, at: nat)
    requires Shaped(s) && s.current != []
    ensures s.current[0] in s.timers && s.timers[s.current[0]].value < s.modulus
            && s.timers[s.current[0]].period < s.modulus
    ensures Drained(s, at) == Drained(DrainStep(s, at), at)
  {
    DrainStepShrinks(s, at);
    hide DrainStep, LeftOf;
  }

  /** What one iteration does to the queue and the other fields. */
  lemma DrainProgress(s: Service, inHand: set<TimerId>, at: nat)
    requires Ok(s, inHand) && s.current != [] && s.epoch + s.modulus <= at
    ensures Shaped(s)
    ensures s.current[0] in s.timers && s.timers[s.current[0]].value < s.modulus
            && s.timers[s.current[0]].period < s.modulus
    ensures var s' := DrainStep(s, at);
            && LeftOf(s') < LeftOf(s) && Ok(s', inHand)
            && |s'.queue| + Reloads(s'.current, s'.timers) == |s.queue| + Reloads(s.current, s.timers)
            && s.queue <= s'.queue && s.stamps <= s'.stamps
            && s'.overflow == s.overflow && s'.epoch == s.epoch && s'.modulus == s.modulus
            && s'.callbacks == s.callbacks + [s.current[0]]
            && s'.lives == Fire(s, s.current[0], at).lives
  {
    assert Shaped(s);
    hide Ok, Shaped, Left, LeftOf, DrainStep, Fire;
    HeadIsFiled(s, inHand);
    DrainStepOk(s, inHand, at);
    DrainStepFalls(s, at);
    DrainStepShrinks(s, at);
    DrainStepCurrent(s, at, s.timers[s.current[0]]);
  }

  /** Draining ends with an empty list; it keeps the invariant, and posts one START for
      each auto-reload timer. */
  lemma {:induction false} DrainedOk(s: Service, inHand: set<TimerId>, at: nat)
    requires Ok(s, inHand) && s.epoch + s.modulus <= at
    ensures var d := Drained(s, at);
            && Ok(d, inHand) && d.current == []
            && d.overflow == s.overflow && d.epoch == s.epoch && d.modulus == s.modulus
            && s.queue <= d.queue && s.stamps <= d.stamps
            && |d.queue| == |s.queue| + Reloads(s.current, s.timers)
    decreases LeftOf(s)
  {
    if s.current != [] {
      DrainProgress(s, inHand, at);
      DrainMore(s, at);
      hide Ok, Shaped, LeftOf, DrainStep, Drained, Reloads;
      DrainedOk(DrainStep(s, at), inHand, at);
    }
  }

  lemma DrainStepKeeps(s: Service, inHand: set<TimerId>, at: nat, room: nat)
    requires Ok(s, inHand) && s.current != [] && s.epoch + s.modulus <= at
    requires Accounted(s, at, room) && |s.queue| + Reloads(s.current, s.timers) <= room
    ensures s.current[0] in s.timers && s.timers[s.current[0]].value < s.modulus
            && s.timers[s.current[0]].period < s.modulus
    ensures Accounted(DrainStep(s, at), at, room) && Kept(s, DrainStep(s, at))
  {
    hide Ok, DrainStep, Reloads;
    DrainProgress(s, inHand, at);
    HeadIsFiled(s, inHand);
    FireAccounted(s, s.current[0], at, room);
    DrainStepCurrent(s, at, s.timers[s.current[0]]);
    FireKeeps(s, s.current[0], at);
    hide Shaped, LeftOf, With, Logged, OnlyConcerns;
  }

  lemma {:induction false} DrainedKeeps(s: Service, inHand: set<TimerId>, at: nat, room: nat)
    requires Ok(s, inHand) && s.epoch + s.modulus <= at
    requires Accounted(s, at, room) && |s.queue| + Reloads(s.current, s.timers) <= room
    ensures Accounted(Drained(s, at), at, room) && Kept(s, Drained(s, at))
    decreases LeftOf(s)
  {
    if s.current != [] {
      DrainProgress(s, inHand, at);
      DrainStepKeeps(s, inHand, at, room);
      DrainMore(s, at);
      hide Ok, Shaped, LeftOf, DrainStep, Drained, Reloads, Accounted, Kept;
      DrainedKeeps(DrainStep(s, at), inHand, at, room);
      KeptTwice(s, DrainStep(s, at), Drained(s, at));
    }
  }

  /** Nothing has happened to the timers outside the current list of before. */
  ghost predicate Untouched(was: Service, s: Service) {
    && s.timers.Keys == was.timers.Keys && s.modulus == was.modulus
    && (forall x :: x in was.timers && x !in was.current ==>
          s.timers[x] == was.timers[x] && (x in s.lives <==> x in was.lives)
          && (x in was.lives ==> s.lives[x] == was.lives[x]))
    && (forall x :: x in was.timers ==>
          s.timers[x].autoReload == was.timers[x].autoReload && s.timers[x].period == was.timers[x].period)
    && (forall x :: Filed(s, x) ==> Filed(was, x))
    && (forall x :: x !in was.current && NoCommand(was.queue, x) ==> NoCommand(s.queue, x))
  }

  /** Of the timers in the current list of before, each one-shot timer has been
      called back exactly once unless it is still left; no other timer has been. */
  ghost predicate CalledOnce(was: Service, left: seq<TimerId>, callbacks: seq<TimerId>) {
    && (forall x :: x in left ==> x in was.current)
    && (forall x :: x !in was.current ==> multiset(callbacks)[x] == multiset(was.callbacks)[x])
    && (forall x :: x in was.current && x in was.timers && !was.timers[x].autoReload ==>
          multiset(callbacks)[x] == multiset(was.callbacks)[x] + if x in left then 0 else 1)
  }

  lemma UntouchedStart(s: Service)
    ensures Untouched(s, s) && CalledOnce(s, s.current, s.callbacks)
  {
  }

  lemma SwitchUntouched(was: Service, s: Service)
    requires Untouched(was, s) && s.current == []
    ensures Untouched(was, Switch(s))
  {
    assert forall x :: Filed(Switch(s), x) <==> Filed(s, x);
  }

  /** The list being drained loses no other timer, and the first one for good if it
      does not reload. */
  lemma DrainMembers(items: seq<TimerId>, timers: map<TimerId, Timer>, x: TimerId, left: seq<TimerId>, again: bool)
    requires items != [] && x == items[0] && Distinct(items)
    requires left == if again then With(items[1..], timers, x) else items[1..]
    ensures forall y :: y in items && y != x ==> y in left
    ensures forall y :: y in left ==> y in items && (y == x ==> again)
  {
    assert x !in items[1..] && items == [x] + items[1..];
    var a, b := WithSplits(items[1..], timers, x);
  }

  lemma DrainTouches(was: Service, s: Service, inHand: set<TimerId>, at: nat)
    requires Ok(s, inHand) && s.current != [] && s.epoch + s.modulus <= at
    requires Untouched(was, s) && CalledOnce(was, s.current, s.callbacks)
    ensures s.current[0] in s.timers && s.timers[s.current[0]].value < s.modulus
            && s.timers[s.current[0]].period < s.modulus
    ensures Untouched(was, DrainStep(s, at))
    ensures CalledOnce(was, DrainStep(s, at).current, DrainStep(s, at).callbacks)
  {
    assert Distinct(s.current);
    hide Ok, DrainStep, Untouched, CalledOnce;
    HeadIsFiled(s, inHand);
    var x := s.current[0];
    var t, s' := s.timers[x], DrainStep(s, at);
    DrainStepCurrent(s, at, t);
    DrainMembers(s.current, s'.timers, x, s'.current, t.autoReload && WrapAdd(t.value, t.period, s.modulus) > t.value);
    FrameUntouched(was, s, DrainStep(s, at), x, at);
    DrainCounts(was, s.current, DrainStep(s, at).current, s.callbacks, x);
  }

  lemma FrameUntouched(was: Service, s: Service, s': Service, x: TimerId, at: nat)
    requires Untouched(was, s) && x in s.timers && x in s.current
    requires CalledOnce(was, s.current, s.callbacks)
    requires x in s'.timers && s'.timers == s.timers[x := s.timers[x].(value := s'.timers[x].value)]
    requires s'.lives == Fire(s, x, at).lives && s'.overflow == s.overflow && s'.modulus == s.modulus
    requires forall y :: y in s'.current ==> y in s.current
    requires s'.queue == s.queue || s'.queue == s.queue + [Start(x, s.timers[x].value)]
    ensures x in was.current && x in was.timers && s.timers[x].autoReload == was.timers[x].autoReload
    ensures Untouched(was, s')
  {
  }

  lemma DrainCounts(was: Service, left: seq<TimerId>, left': seq<TimerId>, callbacks: seq<TimerId>, x: TimerId)
    requires CalledOnce(was, left, callbacks) && x in left && x in was.timers
    requires forall y :: y in left && y != x ==> y in left'
    requires forall y :: y in left' ==> y in left && (y == x ==> was.timers[x].autoReload)
    ensures CalledOnce(was, left', callbacks + [x])
  {
    assert multiset(callbacks + [x]) == multiset(callbacks) + multiset{x};
  }

  lemma {:induction false} DrainedTouches(was: Service, s: Service, inHand: set<TimerId>, at: nat)
    requires Ok(s, inHand) && s.epoch + s.modulus <= at
    requires Untouched(was, s) && CalledOnce(was, s.current, s.callbacks)
    ensures Untouched(was, Drained(s, at)) && CalledOnce(was, [], Drained(s, at).callbacks)
    decreases LeftOf(s)
  {
    if s.current != [] {
      DrainProgress(s, inHand, at);
      DrainTouches(was, s, inHand, at);
      DrainMore(s, at);
      hide Ok, Shaped, LeftOf, DrainStep, Drained, Untouched, CalledOnce;
      DrainedTouches(was, DrainStep(s, at), inHand, at);
    }
  }

  // ----- sampling the time -----

  /** prvSwitchTimerLists */
  ghost function Switched(s: Service, at: nat): Service {
    Switch(Drained(s, at))
  }

  /** prvSampleTimeNow: the lists are switched if a new epoch has begun. */
  ghost function Sampled(s: Service, now: nat): Service {
    if now >= s.epoch + s.modulus then Switched(s, now) else s
  }

  lemma SwitchedOk(s: Service, inHand: set<TimerId>, at: nat)
    requires Ok(s, inHand) && s.epoch + s.modulus <= at
    ensures var t := Switched(s, at);
            && Ok(t, inHand) && t.modulus == s.modulus
            && s.queue <= t.queue && s.stamps <= t.stamps && Untouched(s, t)
            && t.current == s.overflow && t.overflow == [] && t.epoch == s.epoch + s.modulus
            && |t.queue| == |s.queue| + Reloads(s.current, s.timers)
            && CalledOnce(s, [], t.callbacks)
  {
    hide Ok, Drained, Untouched, CalledOnce, Reloads;
    UntouchedStart(s);
    DrainedOk(s, inHand, at);
    DrainedTouches(s, s, inHand, at);
    SwitchOk(Drained(s, at), inHand);
    SwitchUntouched(s, Drained(s, at));
  }

  lemma SampledOk(s: Service, inHand: set<TimerId>, now: nat)
    requires Ok(s, inHand) && s.epoch <= now < s.epoch + 2 * s.modulus
    ensures var t := Sampled(s, now);
            && Ok(t, inHand) && t.modulus == s.modulus && t.epoch <= now < t.epoch + t.modulus
            && s.queue <= t.queue && s.stamps <= t.stamps && Untouched(s, t)
            && (now >= s.epoch + s.modulus ==>
                  && t.current == s.overflow && t.overflow == [] && t.epoch == s.epoch + s.modulus
                  && |t.queue| == |s.queue| + Reloads(s.current, s.timers)
                  && CalledOnce(s, [], t.callbacks))
  {
    hide Ok, Switched, Untouched, CalledOnce, Reloads;
    UntouchedStart(s);
    if now >= s.epoch + s.modulus {
      SwitchedOk(s, inHand, now);
    }
  }

  lemma SampledKeeps(s: Service, inHand: set<TimerId>, now: nat, room: nat)
    requires Ok(s, inHand) && s.epoch <= now < s.epoch + 2 * s.modulus && Accounted(s, now, room)
    requires now >= s.epoch + s.modulus ==> |s.queue| + Reloads(s.current, s.timers) <= room
    ensures Accounted(Sampled(s, now), now, room) && Kept(s, Sampled(s, now))
  {
    if now >= s.epoch + s.modulus {
      hide Ok, Drained, Reloads;
      DrainedKeeps(s, inHand, now, room);
      hide Logged;
    }
  }

  /** A list switch itself makes no difference to the accounts. */
  lemma SwitchAccounts(s: Service, d: Service, now: nat, room: nat)
    requires Accounted(d, now, room) && Kept(s, d)
    ensures Accounted(Switch(d), now, room) && Kept(s, Switch(d))
  {
    hide Logged;
  }

  lemma NothingToDrain(s: Service, at: nat)
    requires s.current == []
    ensures Drained(s, at) == s
  {
  }

  lemma QueueHasRoom(s: Service, now: nat, room: nat)
    requires Accounted(s, now, room)
    ensures |s.queue| <= room && forall i :: 0 <= i < |s.stamps| ==> s.stamps[i] <= now
  {
  }

  lemma PostedIsRoom(s: Service, now: nat, room: nat)
    requires Accounted(s, now, room) && s.current != [] && |s.queue| + Reloads(s.current, s.timers) <= room
    ensures Reloading(s.timers, s.current[0]) ==> |s.queue| < room
  {
    hide Logged;
  }

  // ----- commands -----

  lemma PopFacts(s: Service)
    requires Ok(s, {}) && s.queue != []
    ensures |s.stamps| == |s.queue| && s.queue[0].timer in s.timers
    ensures 0 < s.timers[s.queue[0].timer].period < s.modulus
    ensures s.queue[0].Start? ==> s.modulus > 0 && GoodStart(s.queue[0].time, s.stamps[0], s.modulus)
    ensures s.queue[0].ChangePeriod? ==> 0 < s.queue[0].period < s.modulus
  {
  }

  lemma TakenStays(s: Service, s': Service, x: TimerId)
    requires Untouched(s, s') && x in s.timers && !Filed(s, x)
    ensures x in s'.timers && s'.timers[x] == s.timers[x] && !Filed(s', x)
    ensures x in s'.lives <==> x in s.lives
    ensures x in s.lives ==> Due(s', x) == Due(s, x) && s'.lives[x] == s.lives[x]
    ensures NoCommand(s.queue, x) ==> NoCommand(s'.queue, x)
  {
  }

  /** The first part of an iteration of prvProcessReceivedCommands: the command is
      taken, its timer removed from its list, and the time sampled. */
  ghost function Taken(s: Service, now: nat): Service
    requires s.queue != [] && s.stamps != []
  {
    Sampled(Unfile(Pop(s), s.queue[0].timer), now)
  }

  /** The timer of a command in hand. */
  ghost predicate InHand(s: Service, command: Command, stamp: nat, now: nat) {
    var x := command.timer;
    && Ok(s, {x}) && x in s.timers && !Filed(s, x)
    && s.epoch <= now < s.epoch + s.modulus && 0 < s.timers[x].period < s.modulus
    && (command.Start? ==> GoodStart(command.time, stamp, s.modulus))
    && (command.ChangePeriod? ==> 0 < command.period < s.modulus)
    && (x in s.lives ==> command.Start? && stamp + s.timers[x].period == Due(s, x))
  }

  lemma HandFacts(s: Service, command: Command, stamp: nat, now: nat)
    requires InHand(s, command, stamp, now)
    ensures command.timer in s.timers && !Filed(s, command.timer)
    ensures s.modulus > 0 && 0 < s.timers[command.timer].period < s.modulus
  {
  }

  lemma PopKeeps(s: Service, now: nat, room: nat)
    requires Ok(s, {}) && s.queue != [] && s.stamps != [] && Accounted(s, now, room)
    ensures var s' := Unfile(Pop(s), s.queue[0].timer);
            Accounted(s', now, room) && Kept(s, s') && OnlyConcerns(s, s', s.queue[0].timer)
  {
    assert forall i :: 0 <= i < |s.queue| - 1 ==> s.queue[1..][i] == s.queue[i+1];
    forall y | y != s.queue[0].timer ensures NoCommand(s.queue[1..], y) <==> NoCommand(s.queue, y) {
      assert forall i :: 0 < i < |s.queue| ==> s.queue[i] == s.queue[1..][i-1];
    }
    assert Distinct(s.current) && Distinct(s.overflow);
    hide Ok, Unfile;
    UnfileKeeps(Pop(s), s.queue[0].timer);
    assert Kept(s, Pop(s)) && OnlyConcerns(s, Pop(s), s.queue[0].timer);
    KeptTwice(s, Pop(s), Unfile(Pop(s), s.queue[0].timer));
    OnlyConcernsTwice(s, Pop(s), Unfile(Pop(s), s.queue[0].timer), s.queue[0].timer);
    hide Kept, OnlyConcerns, Logged;
  }

  lemma TakenOk(s: Service, now: nat)
    requires Ok(s, {}) && s.queue != [] && s.epoch <= now < s.epoch + 2 * s.modulus
    ensures s.stamps != [] && InHand(Taken(s, now), s.queue[0], s.stamps[0], now)
    ensures var x, s', t := s.queue[0].timer, Unfile(Pop(s), s.queue[0].timer), Taken(s, now);
            && x in s.timers && t.timers[x] == s.timers[x] && t.modulus == s.modulus
            && (x in t.lives <==> x in s.lives) && (x in t.lives ==> t.lives[x] == s.lives[x])
            && (NoCommand(s.queue[1..], x) ==> NoCommand(t.queue, x))
            && s.queue[1..] <= t.queue && s.stamps[1..] <= t.stamps && Untouched(s', t)
            && (now >= s.epoch + s.modulus ==> CalledOnce(s', [], t.callbacks))
            && |t.queue| == |s.queue| - 1
                            + if now >= s.epoch + s.modulus then Reloads(s'.current, s'.timers) else 0
  {
    PopOk(s, {});
    PopFacts(s);
    var x := s.queue[0].timer;
    assert {} + {x} == {x} && {x} + {x} == {x};
    UnfileOk(Pop(s), {x}, x);
    var s' := Unfile(Pop(s), x);
    SampledOk(s', {x}, now);
    TakenStays(s', Sampled(s', now), x);
    hide Ok, Sampled, Untouched, CalledOnce, Reloads, GoodStart, NoCommand, Without, Instant;
  }

  lemma TakenKeeps(s: Service, now: nat, room: nat)
    requires Ok(s, {}) && s.queue != [] && s.stamps != [] && s.epoch <= now < s.epoch + 2 * s.modulus
    requires Accounted(s, now, room)
    requires var s' := Unfile(Pop(s), s.queue[0].timer);
             now >= s.epoch + s.modulus ==> |s.queue| - 1 + Reloads(s'.current, s'.timers) <= room
    ensures Accounted(Taken(s, now), now, room) && Kept(s, Taken(s, now))
  {
    PopOk(s, {});
    var x := s.queue[0].timer;
    assert {} + {x} == {x} && {x} + {x} == {x};
    hide Ok, Accounted, Kept, Sampled, Reloads;
    UnfileOk(Pop(s), {x}, x);
    PopKeeps(s, now, room);
    SampledKeeps(Unfile(Pop(s), x), {x}, now, room);
    KeptTwice(s, Unfile(Pop(s), x), Taken(s, now));
  }

  /** If the lists are not switched, taking a command concerns its timer only. */
  lemma TakenConcerns(s: Service, now: nat, clock: nat, room: nat)
    requires Ok(s, {}) && s.queue != [] && s.stamps != [] && Accounted(s, clock, room)
    ensures now < s.epoch + s.modulus ==> OnlyConcerns(s, Taken(s, now), s.queue[0].timer)
  {
    hide Ok, Accounted, Kept, OnlyConcerns;
    PopKeeps(s, clock, room);
  }

  /** An auto-reload timer in hand begins a life at the time its START carries, unless
      it is live or has another command pending. */
  ghost function Begun(s: Service, x: TimerId, stamp: nat): Service
    requires x in s.timers
  {
    if x !in s.lives && s.timers[x].autoReload && NoCommand(s.queue, x) then Begin(s, x, stamp) else s
  }

  /** The CHANGE_PERIOD branch of prvProcessReceivedCommands, when the tick count is
      now: an auto-reload timer without another command pending begins a life. */
  ghost function ChangeStep(s: Service, x: TimerId, period: nat, now: nat): Service
    requires now < s.modulus && period < s.modulus && x in s.timers
  {
    var t := s.timers[x].(active := true, period := period);
    var changed := Retime(s, x, t);
    var begun := if t.autoReload && NoCommand(s.queue, x) then Begin(changed, x, s.epoch + now) else changed;
    var next := WrapAdd(now, period, s.modulus);
    FileAs(begun, x, next, Decide(next, now, now, period, s.modulus))
  }

  /** The branches of prvProcessReceivedCommands. */
  ghost function Obeyed(s: Service, command: Command, stamp: nat, now: nat): Service
    requires InHand(s, command, stamp, now)
  {
    match command
    case Start(x, time) => StartStep(Begun(s, x, stamp), x, time, stamp, now - s.epoch)
    case ChangePeriod(x, period) => ChangeStep(s, x, period, now - s.epoch)
    case Stop(x) => Retime(s, x, s.timers[x].(active := false))
    case Delete(x) => Retime(s, x, s.timers[x].(active := false))
  }

  /** What a START leaves: an active timer, filed under its instant if that is still
      to come, and else sent a START for it if it reloads. */
  ghost predicate Started(s: Service, x: TimerId, stamp: nat, now: nat) {
    && x in s.timers && s.timers[x].active
    && (if stamp + s.timers[x].period <= now then
          && !Filed(s, x)
          && (s.timers[x].autoReload ==>
                && s.queue != [] && s.stamps != []
                && s.queue[|s.queue| - 1].Start? && s.queue[|s.queue| - 1].timer == x
                && s.stamps[|s.stamps| - 1] == stamp + s.timers[x].period)
        else
          Filed(s, x) && Expiry(s, x) == stamp + s.timers[x].period)
  }

  /** Whether a START for the timer makes it expire at once. */
  ghost predicate ProcessedNow(s: Service, x: TimerId, time: nat, now: nat)
    requires x in s.timers && time < s.modulus && now < s.modulus && s.timers[x].period < s.modulus
  {
    var period := s.timers[x].period;
    Decide(WrapAdd(time, period, s.modulus), now, time, period, s.modulus) == ProcessNow
  }

  lemma StartStepIsRight(s: Service, x: TimerId, time: nat, stamp: nat, now: nat)
    requires Ok(s, {x}) && now < s.modulus && x in s.timers && !Filed(s, x) && s.timers[x].period < s.modulus
    requires GoodStart(time, stamp, s.modulus) && stamp <= s.epoch + now
    requires Timely(s.epoch + now - stamp, s.timers[x].period, s.modulus)
    requires x in s.lives ==> stamp + s.timers[x].period == Due(s, x)
    ensures time < s.modulus && (ProcessedNow(s, x, time, now) <==> stamp + s.timers[x].period <= s.epoch + now)
    ensures Ok(StartStep(s, x, time, stamp, now), {})
    ensures Started(StartStep(s, x, time, stamp, now), x, stamp, s.epoch + now)
  {
    hide Ok, Decide, StartStep, Started, Timely;
    Facts(s, {x}, x);
    StartDecision(time, stamp, s.timers[x].period, s.epoch, now, s.modulus);
    StartStepOk(s, x, time, stamp, now);
    StartStepStarts(s, x, time, stamp, now);
  }

  lemma StartStepStarts(s: Service, x: TimerId, time: nat, stamp: nat, now: nat)
    requires Ok(s, {x}) && now < s.modulus && x in s.timers && !Filed(s, x) && s.timers[x].period < s.modulus
    requires GoodStart(time, stamp, s.modulus) && stamp <= s.epoch + now
    requires Timely(s.epoch + now - stamp, s.timers[x].period, s.modulus)
    ensures Started(StartStep(s, x, time, stamp, now), x, stamp, s.epoch + now)
  {
    hide Ok;
    Facts(s, {x}, x);
    var t := s.timers[x].(active := true);
    var next := WrapAdd(time, t.period, s.modulus);
    var decision := Decide(next, now, time, t.period, s.modulus);
    StartDecision(time, stamp, t.period, s.epoch, now, s.modulus);
    RetimeOk(s, {x}, x, t);
    if decision != ProcessNow {
      RetimeOk(Retime(s, x, t), {x}, x, t.(value := next));
      SlotHolds(Retime(Retime(s, x, t), x, t.(value := next)), {x}, x, decision);
    }
  }

  lemma SlotHolds(s: Service, inHand: set<TimerId>, x: TimerId, where: Decision)
    requires Ok(s, inHand) && x in s.timers && !Filed(s, x) && where != ProcessNow
    ensures Filed(Slot(s, x, where), x)
    ensures Expiry(Slot(s, x, where), x) == s.epoch + s.timers[x].value + if where == ToOverflow then s.modulus else 0
  {
    SlotFrame(s, x, where);
  }

  lemma StartStepUnfolds(s: Service, x: TimerId, time: nat, stamp: nat, now: nat, s': Service)
    requires s.modulus > 0 && now < s.modulus && time < s.modulus && x in s.timers && s.timers[x].period < s.modulus
    requires var t := s.timers[x].(active := true);
             var next := WrapAdd(time, t.period, s.modulus);
             var decision := Decide(next, now, time, t.period, s.modulus);
             s' == if decision == ProcessNow then StartNow(Retime(s, x, t), x, next, stamp, now)
                   else FileAs(Retime(s, x, t), x, next, decision)
    ensures s' == StartStep(s, x, time, stamp, now)
  {
  }

  /** The life of a timer that has been started: an auto-reload timer without another
      command pending is live, since the time that the START carries unless it was live
      before, and has been called back once since if that instant has passed. */
  ghost predicate Restarted(lives: map<TimerId, Life>, lives': map<TimerId, Life>, queue: seq<Command>,
                            timer: Timer, x: TimerId, stamp: nat, now: nat) {
    && (timer.autoReload && NoCommand(queue, x) ==> x in lives')
    && (x in lives ==> x in lives' && lives'[x].origin == lives[x].origin && lives[x].calls <= lives'[x].calls)
    && (x in lives' && x !in lives ==>
          lives'[x].origin == stamp && lives'[x].calls == if stamp + timer.period <= now then [now] else [])
  }

  lemma BegunOk(s: Service, x: TimerId, stamp: nat)
    requires Ok(s, {x}) && x in s.timers && !Filed(s, x)
    ensures var u := Begun(s, x, stamp);
            && Ok(u, {x}) && Kept(s, u) && OnlyConcerns(s, u, x)
            && u == s.(lives := u.lives)
            && (x in u.lives <==> x in s.lives || (s.timers[x].autoReload && NoCommand(s.queue, x)))
            && (x in s.lives ==> u == s)
            && (x in u.lives && x !in s.lives ==>
                  && u.lives[x].origin == stamp && u.lives[x].calls == []
                  && Due(u, x) == stamp + s.timers[x].period)
  {
    hide Ok, NoCommand, Instant, Kept, OnlyConcerns;
    assert {x} + {x} == {x};
    if x !in s.lives && s.timers[x].autoReload && NoCommand(s.queue, x) {
      BeginOk(s, {x}, x, stamp);
      BeginKeeps(s, x, stamp);
    } else {
      KeptItself(s, x);
    }
  }

  lemma KeptItself(s: Service, x: TimerId)
    ensures Kept(s, s) && OnlyConcerns(s, s, x)
  {
  }

  lemma BegunAccounted(s: Service, x: TimerId, stamp: nat, now: nat, room: nat)
    requires Accounted(s, now, room) && x in s.timers && stamp <= now
    ensures Accounted(Begun(s, x, stamp), now, room)
  {
  }

  lemma PostAccounted(s: Service, command: Command, stamp: nat, now: nat, room: nat)
    requires Accounted(s, now, room) && |s.queue| < room && stamp <= now
    ensures Accounted(Post(s, command, stamp), now, room)
  {
    hide Logged;
  }

  lemma StartNowKeeps(s: Service, x: TimerId, next: nat, stamp: nat, now: nat)
    requires x in s.timers
    ensures Kept(s, StartNow(s, x, next, stamp, now)) && OnlyConcerns(s, StartNow(s, x, next, stamp, now), x)
    ensures StartNow(s, x, next, stamp, now).callbacks == s.callbacks + [x]
    ensures StartNow(s, x, next, stamp, now).lives == Fire(s, x, s.epoch + now).lives
  {
    hide Kept, OnlyConcerns;
    var filed := FileAs(s, x, next, ProcessNow);
    var fired := Fire(filed, x, s.epoch + now);
    FileAccounted(s, x, next, ProcessNow);
    hide FileAs;
    FileKeeps(s, x, next, ProcessNow);
    FireKeeps(filed, x, s.epoch + now);
    KeptItself(fired, x);
    PostKeeps(fired, Start(x, next), stamp + s.timers[x].period);
    Chain(s, filed, fired, StartNow(s, x, next, stamp, now), x);
  }

  lemma StartNowAccounted(s: Service, x: TimerId, next: nat, stamp: nat, now: nat, room: nat)
    requires x in s.timers && Accounted(s, s.epoch + now, room)
    requires s.timers[x].autoReload ==> |s.queue| < room && stamp + s.timers[x].period <= s.epoch + now
    ensures Accounted(StartNow(s, x, next, stamp, now), s.epoch + now, room)
  {
    hide Accounted;
    var filed := FileAs(s, x, next, ProcessNow);
    var fired := Fire(filed, x, s.epoch + now);
    FileAccounted(s, x, next, ProcessNow);
    hide FileAs;
    AccountedSame(s, filed, s.epoch + now, room);
    FireAccounted(filed, x, s.epoch + now, room);
    if s.timers[x].autoReload {
      PostAccounted(fired, Start(x, next), stamp + s.timers[x].period, s.epoch + now, room);
    }
  }

  lemma StartStepKeeps(s: Service, x: TimerId, time: nat, stamp: nat, now: nat)
    requires s.modulus > 0 && now < s.modulus && time < s.modulus && x in s.timers && s.timers[x].period < s.modulus
    ensures var s' := StartStep(s, x, time, stamp, now);
            && Kept(s, s') && OnlyConcerns(s, s', x)
            && s'.callbacks == s.callbacks + (if ProcessedNow(s, x, time, now) then [x] else [])
            && s'.lives == if ProcessedNow(s, x, time, now) then Fire(s, x, s.epoch + now).lives else s.lives
  {
    var active := Retime(s, x, s.timers[x].(active := true));
    var next := WrapAdd(time, s.timers[x].period, s.modulus);
    var decision := Decide(next, now, time, s.timers[x].period, s.modulus);
    RetimeKeeps(s, x, s.timers[x].(active := true));
    StartNowKeeps(active, x, next, stamp, now);
    FileKeeps(active, x, next, decision);
    FileAccounted(active, x, next, decision);
    hide Accounted, Kept, OnlyConcerns, FileAs, StartNow, Decide, WrapAdd;
    KeptTwice(s, active, StartStep(s, x, time, stamp, now));
    OnlyConcernsTwice(s, active, StartStep(s, x, time, stamp, now), x);
  }

  lemma StartStepAccounted(s: Service, x: TimerId, time: nat, stamp: nat, now: nat, room: nat)
    requires s.modulus > 0 && now < s.modulus && time < s.modulus && x in s.timers && s.timers[x].period < s.modulus
    requires Accounted(s, s.epoch + now, room)
    requires (ProcessedNow(s, x, time, now) && s.timers[x].autoReload) ==>
               |s.queue| < room && stamp + s.timers[x].period <= s.epoch + now
    ensures Accounted(StartStep(s, x, time, stamp, now), s.epoch + now, room)
  {
    hide Accounted;
    var active := Retime(s, x, s.timers[x].(active := true));
    var next := WrapAdd(time, s.timers[x].period, s.modulus);
    var decision := Decide(next, now, time, s.timers[x].period, s.modulus);
    AccountedSame(s, active, s.epoch + now, room);
    hide FileAs, StartNow, Decide, WrapAdd;
    if decision == ProcessNow {
      StartNowAccounted(active, x, next, stamp, now, room);
    } else {
      FileAccounted(active, x, next, decision);
      AccountedSame(active, FileAs(active, x, next, decision), s.epoch + now, room);
    }
  }

  lemma ChangeOk(s: Service, x: TimerId, period: nat, now: nat)
    requires Ok(s, {x}) && x in s.timers && x !in s.lives && !Filed(s, x) && now < s.modulus
    requires 0 < period < s.modulus
    ensures var s' := ChangeStep(s, x, period, now);
            && Ok(s', {}) && Filed(s', x) && Expiry(s', x) == s.epoch + now + period
  {
    hide Ok, With, NoCommand, Instant, Slot;
    Facts(s, {x}, x);
    var t := s.timers[x].(active := true, period := period);
    var begins := t.autoReload && NoCommand(s.queue, x);
    var next := WrapAdd(now, t.period, s.modulus);
    var decision := Decide(next, now, now, t.period, s.modulus);
    DecisionIsExact(now, t.period, s.epoch, now, s.modulus);
    assert decision != ProcessNow
           && s.epoch + now + t.period == s.epoch + next + if decision == ToOverflow then s.modulus else 0;
    hide Decide, WrapAdd;
    RetimeOk(s, {x}, x, t);
    var s1 := Retime(s, x, t);
    var s2 := if begins then Begin(s1, x, s.epoch + now) else s1;
    assert {x} + {x} == {x} && {x} - {x} == {};
    if begins {
      BeginOk(s1, {x}, x, s.epoch + now);
    }
    FileOk(s2, {x}, x, next, decision);
    RetimeOk(s2, {x}, x, t.(value := next));
    SlotHolds(Retime(s2, x, t.(value := next)), {x}, x, decision);
  }

  lemma FirstIsEarliest(s: Service)
    requires Ok(s, {})
    ensures forall x :: x in s.current ==> x in s.timers && ValueOf(s.timers, s.current[0]) <= ValueOf(s.timers, x)
    ensures forall x :: x in s.overflow ==> x in s.timers
    ensures forall x :: x in s.timers ==> s.timers[x].value < s.modulus
  {
    forall x | x in s.current ensures ValueOf(s.timers, s.current[0]) <= ValueOf(s.timers, x) {
      var j := IndexOf(s.current, x);
      assert KeysOf(s.current, s.timers)[0] <= KeysOf(s.current, s.timers)[j];
    }
  }

  lemma WaitIsSafe(s: Service, nextExpireTime: nat, timeNow: nat)
    requires Ok(s, {}) && timeNow < s.modulus
    requires nextExpireTime == if s.current == [] then 0 else ValueOf(s.timers, s.current[0])
    requires s.current != [] ==> timeNow < nextExpireTime
    ensures nextExpireTime < s.modulus
    ensures forall x :: Filed(s, x) ==>
              Expiry(s, x) > s.epoch + timeNow
              && Expiry(s, x) >= s.epoch + timeNow + WrapSub(nextExpireTime, timeNow, s.modulus)
    ensures s.current != [] ==>
              Expiry(s, s.current[0]) == s.epoch + nextExpireTime
              && forall x :: Filed(s, x) ==> Expiry(s, s.current[0]) <= Expiry(s, x)
  {
    FirstIsEarliest(s);
    assert s.current != [] ==> s.current[0] !in s.overflow;
    hide Ok;
  }

  lemma CreateOk(s: Service, x: TimerId, t: Timer)
    requires Ok(s, {}) && x !in s.timers && 0 < t.period < s.modulus && t.value < s.modulus
    ensures Ok(Retime(s, x, t), {}) && !Filed(s, x)
  {
    hide Tracked, Instant, GoodStart, Distinct;
    var s' := Retime(s, x, t);
    assert KeysOf(s.current, s'.timers) == KeysOf(s.current, s.timers);
    assert KeysOf(s.overflow, s'.timers) == KeysOf(s.overflow, s.timers);
    forall y | y in s.lives ensures Tracked(s', y) {
      TrackedFrame(s, s', y);
    }
  }

  lemma StartLifeOk(s: Service, x: TimerId, time: nat, stamp: nat)
    requires Ok(s, {}) && x in s.timers && s.timers[x].autoReload && !Filed(s, x) && NoCommand(s.queue, x)
    requires s.modulus > 0 && GoodStart(time, stamp, s.modulus)
    ensures Ok(Post(Begin(s, x, stamp), Start(x, time), stamp), {})
  {
    hide Ok, GoodStart, NoCommand, Instant;
    assert {} + {x} == {x} && {x} - {x} == {};
    BeginOk(s, {}, x, stamp);
    PostOk(Begin(s, x, stamp), {x}, x, time, stamp);
  }

  /** The callback commutes with the filing. */
  lemma ExpireOrder(s: Service, now: nat, s': Service)
    requires s.modulus > 0 && now < s.modulus && s.current != [] && s.current[0] in s.timers
    requires s.timers[s.current[0]].value < s.modulus && s.timers[s.current[0]].period < s.modulus
    requires var x := s.current[0];
             s' == Fire(Reload(Unfile(s, x), x, now), x, s.epoch + now)
    ensures s' == ExpireStep(s, now)
  {
    hide With, Without, Decide, WrapAdd;
  }

  lemma UnfiledHead(s: Service, inHand: set<TimerId>)
    requires Ok(s, inHand) && s.current != []
    ensures !Filed(Unfile(s, s.current[0]), s.current[0])
  {
    UnfileOk(s, inHand, s.current[0]);
  }

  lemma RestartedOk(was: map<TimerId, Life>, s: Service, x: TimerId, timer: Timer, stamp: nat, now: nat)
    requires x in s.lives <==> x in was || (timer.autoReload && NoCommand(s.queue, x))
    requires x in was ==> s.lives == was
    requires x in s.lives && x !in was ==> s.lives[x].origin == stamp && s.lives[x].calls == []
    ensures Restarted(was, if stamp + timer.period <= now then Fire(s, x, now).lives else s.lives,
                      s.queue, timer, x, stamp, now)
  {
  }

  lemma ChangeKeeps(s: Service, x: TimerId, period: nat, now: nat)
    requires now < s.modulus && period < s.modulus && x in s.timers && x !in s.lives
    ensures var s' := ChangeStep(s, x, period, now);
            && Kept(s, s') && OnlyConcerns(s, s', x)
            && s'.callbacks == s.callbacks && s'.queue == s.queue && s'.stamps == s.stamps
            && x in s'.timers && s'.timers[x].active && s'.timers[x].period == period
            && s'.lives == if s.timers[x].autoReload && NoCommand(s.queue, x) then
                             s.lives[x := Life(s.epoch + now, multiset(s.callbacks)[x], [])]
                           else s.lives
  {
    hide Kept, OnlyConcerns;
    var t := s.timers[x].(active := true, period := period);
    var changed := Retime(s, x, t);
    var begun := if t.autoReload && NoCommand(s.queue, x) then Begin(changed, x, s.epoch + now) else changed;
    var next := WrapAdd(now, period, s.modulus);
    var decision := Decide(next, now, now, period, s.modulus);
    RetimeKeeps(s, x, t);
    BeginKeeps(changed, x, s.epoch + now);
    KeptItself(changed, x);
    FileKeeps(begun, x, next, decision);
    FileAccounted(begun, x, next, decision);
    hide FileAs, Decide, NoCommand;
    Chain(s, changed, begun, FileAs(begun, x, next, decision), x);
  }

  lemma BeginAccounted(s: Service, s': Service, x: TimerId, origin: nat, now: nat, room: nat)
    requires Accounted(s, now, room) && origin <= now
    requires s'.queue == s.queue && s'.stamps == s.stamps && s'.callbacks == s.callbacks
    requires s'.lives == s.lives || s'.lives == s.lives[x := Life(origin, multiset(s.callbacks)[x], [])]
    ensures Accounted(s', now, room)
  {
  }

  /** A command is obeyed: the invariant is kept, no life is broken off, and nothing
      happens to any other timer. */
  lemma ObeyedOk(s: Service, command: Command, stamp: nat, now: nat, room: nat)
    requires InHand(s, command, stamp, now) && Accounted(s, now, room)
    requires command.Start? ==> stamp <= now && Timely(now - stamp, s.timers[command.timer].period, s.modulus)
    requires (command.Start? && s.timers[command.timer].autoReload
              && stamp + s.timers[command.timer].period <= now) ==> |s.queue| < room
    ensures var s', x := Obeyed(s, command, stamp, now), command.timer;
            && Ok(s', {}) && Accounted(s', now, room) && Kept(s, s') && OnlyConcerns(s, s', x)
            && s'.callbacks == s.callbacks + if command.Start? && stamp + s.timers[x].period <= now then [x] else []
    ensures command.Start? ==>
              Started(Obeyed(s, command, stamp, now), command.timer, stamp, now)
  {
    hide Accounted, Kept, OnlyConcerns, Ok, GoodStart, Timely, Due, Filed, Started;
    var x := command.timer;
    match command
    case Start(_, time) =>
      ObeyedStart(s, x, time, stamp, now, room);
      hide Restarted, Begun, StartStep;
    case ChangePeriod(_, period) =>
      ObeyedChange(s, x, period, now, room);
      hide ChangeStep;
    case Stop(_) => Deactivated(s, x, now, room);
    case Delete(_) => Deactivated(s, x, now, room);
  }

  lemma ObeyedChange(s: Service, x: TimerId, period: nat, now: nat, room: nat)
    requires Ok(s, {x}) && x in s.timers && x !in s.lives && !Filed(s, x) && Accounted(s, now, room)
    requires s.epoch <= now < s.epoch + s.modulus && 0 < period < s.modulus
    ensures var s' := ChangeStep(s, x, period, now - s.epoch);
            && Ok(s', {}) && Accounted(s', now, room) && Kept(s, s') && OnlyConcerns(s, s', x)
            && s'.callbacks == s.callbacks
  {
    hide Accounted, Kept, OnlyConcerns, Ok, ChangeStep;
    ChangeOk(s, x, period, now - s.epoch);
    ChangeKeeps(s, x, period, now - s.epoch);
    hide NoCommand;
    BeginAccounted(s, ChangeStep(s, x, period, now - s.epoch), x, now, now, room);
  }

  lemma Deactivated(s: Service, x: TimerId, now: nat, room: nat)
    requires Ok(s, {x}) && x in s.timers && x !in s.lives && !Filed(s, x) && Accounted(s, now, room)
    ensures var s' := Retime(s, x, s.timers[x].(active := false));
            && Ok(s', {}) && Accounted(s', now, room) && Kept(s, s') && OnlyConcerns(s, s', x)
            && !Filed(s', x)
  {
    hide Accounted, Kept, OnlyConcerns, Ok;
    var s' := Retime(s, x, s.timers[x].(active := false));
    Facts(s, {x}, x);
    RetimeOk(s, {x}, x, s.timers[x].(active := false));
    SameHand(s', {x}, {});
    RetimeKeeps(s, x, s.timers[x].(active := false));
    AccountedSame(s, s', now, room);
  }

  lemma StartNeedsRoom(s: Service, x: TimerId, time: nat, stamp: nat, now: nat)
    requires InHand(s, Start(x, time), stamp, now)
    requires stamp <= now && Timely(now - stamp, s.timers[x].period, s.modulus)
    ensures time < s.modulus && Begun(s, x, stamp) == s.(lives := Begun(s, x, stamp).lives)
    ensures ProcessedNow(Begun(s, x, stamp), x, time, now - s.epoch) <==> stamp + s.timers[x].period <= now
  {
    hide Ok, GoodStart, Timely, Started;
    BegunOk(s, x, stamp);
    StartStepIsRight(Begun(s, x, stamp), x, time, stamp, now - s.epoch);
  }

  lemma ObeyedStart(s: Service, x: TimerId, time: nat, stamp: nat, now: nat, room: nat)
    requires InHand(s, Start(x, time), stamp, now) && Accounted(s, now, room)
    requires stamp <= now && Timely(now - stamp, s.timers[x].period, s.modulus)
    requires s.timers[x].autoReload && stamp + s.timers[x].period <= now ==> |s.queue| < room
    ensures time < s.modulus
    ensures var s' := StartStep(Begun(s, x, stamp), x, time, stamp, now - s.epoch);
            && Ok(s', {}) && Accounted(s', now, room) && Kept(s, s') && OnlyConcerns(s, s', x)
            && s'.callbacks == s.callbacks + (if stamp + s.timers[x].period <= now then [x] else [])
            && Started(s', x, stamp, now) && Restarted(s.lives, s'.lives, s.queue, s.timers[x], x, stamp, now)
  {
    hide Accounted, Kept, OnlyConcerns, Ok, GoodStart, Timely, Started, Restarted;
    var u := Begun(s, x, stamp);
    BegunOk(s, x, stamp);
    BegunAccounted(s, x, stamp, now, room);
    StartStepIsRight(u, x, time, stamp, now - s.epoch);
    StartStepAccounted(u, x, time, stamp, now - s.epoch, room);
    StartStepKeeps(u, x, time, stamp, now - s.epoch);
    RestartedOk(s.lives, u, x, s.timers[x], stamp, now);
    hide Begun, StartStep, ProcessedNow, Fire, NoCommand, Due;
    KeptTwice(s, u, StartStep(u, x, time, stamp, now - s.epoch));
    OnlyConcernsTwice(s, u, StartStep(u, x, time, stamp, now - s.epoch), x);
  }

  /** What a command leaves of its timer: a START, a timer that is started; a STOP and a
      DELETE, one that is inactive and in no list; a CHANGE_PERIOD, one that is filed one
      new period from now, and live if it reloads and has no other command pending. */
  ghost predicate Outcome(lives: map<TimerId, Life>, queue: seq<Command>, timer: Timer,
                          s: Service, command: Command, stamp: nat, now: nat) {
    var x := command.timer;
    && x in s.timers
    && match command
       case Start(_, _) => Started(s, x, stamp, now) && Restarted(lives, s.lives, queue, timer, x, stamp, now)
       case ChangePeriod(_, period) =>
         && s.timers[x].active && s.timers[x].period == period
         && Filed(s, x) && Expiry(s, x) == now + period
         && (timer.autoReload && NoCommand(queue, x) ==>
               x in s.lives && s.lives[x] == Life(now, multiset(s.callbacks)[x], []))
       case Stop(_) => !Filed(s, x) && !s.timers[x].active
       case Delete(_) => !Filed(s, x) && !s.timers[x].active
  }

  lemma OutcomeOfQueue(lives: map<TimerId, Life>, lives': map<TimerId, Life>, queue: seq<Command>,
                       queue': seq<Command>, timer: Timer, s: Service, command: Command, stamp: nat, now: nat)
    requires Outcome(lives', queue', timer, s, command, stamp, now)
    requires NoCommand(queue, command.timer) ==> NoCommand(queue', command.timer)
    requires command.timer in lives' <==> command.timer in lives
    requires command.timer in lives ==> lives'[command.timer] == lives[command.timer]
    ensures Outcome(lives, queue, timer, s, command, stamp, now)
  {
    hide Started, Filed, Expiry, NoCommand;
  }

  lemma StartedIsTimer(s: Service, x: TimerId, stamp: nat, now: nat)
    requires Started(s, x, stamp, now)
    ensures x in s.timers
  {
  }

  // ----- an expired timer -----

  /** What is left of an auto-reload timer that expired at the given time: it is filed
      under its next instant, or sent a START if that has passed too. */
  ghost predicate Renewed(s: Service, x: TimerId, expiry: nat, now: nat) {
    if expiry + PeriodOf(s.timers, x) <= now then
      && !Filed(s, x) && s.queue != [] && s.stamps != []
      && s.queue[|s.queue| - 1].Start? && s.queue[|s.queue| - 1].timer == x
      && s.stamps[|s.stamps| - 1] == expiry
    else
      Filed(s, x) && Expiry(s, x) == expiry + PeriodOf(s.timers, x)
  }

  lemma SlotPlaces(s: Service, x: TimerId, where: Decision)
    requires x in s.timers && !Filed(s, x) && where != ProcessNow
    ensures Filed(Slot(s, x, where), x)
    ensures Expiry(Slot(s, x, where), x) == s.epoch + s.timers[x].value + if where == ToOverflow then s.modulus else 0
  {
    WithMembers(s.current, s.timers, x);
    WithMembers(s.overflow, s.timers, x);
    hide With;
  }

  lemma ReloadRenews(s: Service, x: TimerId, now: nat)
    requires s.modulus > 0 && now < s.modulus && x in s.timers && !Filed(s, x) && s.timers[x].autoReload
    requires s.timers[x].value <= now && 0 < s.timers[x].period < s.modulus
    ensures Renewed(Reload(s, x, now), x, s.epoch + s.timers[x].value, s.epoch + now)
  {
    hide With;
    var t := s.timers[x];
    var reload := WrapAdd(t.value, t.period, s.modulus);
    var decision := Decide(reload, now, t.value, t.period, s.modulus);
    DecisionIsExact(t.value, t.period, s.epoch, now, s.modulus);
    if decision != ProcessNow {
      SlotPlaces(Retime(s, x, t.(value := reload)), x, decision);
    }
  }

  lemma ReloadKeeps(s: Service, x: TimerId, now: nat)
    requires s.modulus > 0 && now < s.modulus && x in s.timers
    requires s.timers[x].value < s.modulus && s.timers[x].period < s.modulus
    ensures var s' := Reload(s, x, now);
            Kept(s, s') && OnlyConcerns(s, s', x) && s'.callbacks == s.callbacks && s'.lives == s.lives
  {
    var t := s.timers[x];
    var reload := WrapAdd(t.value, t.period, s.modulus);
    var decision := Decide(reload, now, t.value, t.period, s.modulus);
    var filed := FileAs(s, x, reload, decision);
    hide Kept, OnlyConcerns;
    RetimeKeeps(s, x, t.(active := false));
    FileKeeps(s, x, reload, decision);
    FileAccounted(s, x, reload, decision);
    PostKeeps(filed, Start(x, t.value), s.epoch + t.value);
    hide FileAs, Decide, WrapAdd;
    KeptTwice(s, filed, Post(filed, Start(x, t.value), s.epoch + t.value));
    OnlyConcernsTwice(s, filed, Post(filed, Start(x, t.value), s.epoch + t.value), x);
  }

  lemma ReloadAccounted(s: Service, x: TimerId, now: nat, room: nat)
    requires s.modulus > 0 && now < s.modulus && x in s.timers
    requires s.timers[x].value <= now && s.timers[x].period < s.modulus
    requires Accounted(s, s.epoch + now, room)
    requires (s.timers[x].autoReload && s.epoch + s.timers[x].value + s.timers[x].period <= s.epoch + now) ==>
               |s.queue| < room
    requires 0 < s.timers[x].period
    ensures Accounted(Reload(s, x, now), s.epoch + now, room)
  {
    hide Accounted;
    var t := s.timers[x];
    var reload := WrapAdd(t.value, t.period, s.modulus);
    var decision := Decide(reload, now, t.value, t.period, s.modulus);
    var filed := FileAs(s, x, reload, decision);
    DecisionIsExact(t.value, t.period, s.epoch, now, s.modulus);
    FileAccounted(s, x, reload, decision);
    hide FileAs, Decide, WrapAdd;
    if !t.autoReload {
      AccountedSame(s, Retime(s, x, t.(active := false)), s.epoch + now, room);
    } else {
      AccountedSame(s, filed, s.epoch + now, room);
      if decision == ProcessNow {
        PostAccounted(filed, Start(x, t.value), s.epoch + t.value, s.epoch + now, room);
      }
    }
  }

  /** The first timer expires: it alone is concerned, and it is called back once. */
  lemma ExpireStepKeeps(s: Service, now: nat)
    requires Ok(s, {}) && now < s.modulus && s.current != []
    ensures s.current[0] in s.timers && s.timers[s.current[0]].value < s.modulus
            && s.timers[s.current[0]].period < s.modulus
    ensures Kept(s, ExpireStep(s, now)) && OnlyConcerns(s, ExpireStep(s, now), s.current[0])
  {
    hide Ok, Kept, OnlyConcerns, Reload, Unfile, Fire, Distinct;
    ListsAreDistinct(s, {});
    HeadIsFiled(s, {});
    UnfiledKeeps(s, s.current[0], now);
  }

  lemma UnfiledKeeps(s: Service, x: TimerId, now: nat)
    requires Distinct(s.current) && Distinct(s.overflow) && x in s.timers && s.modulus > 0 && now < s.modulus
    requires s.timers[x].value < s.modulus && s.timers[x].period < s.modulus
    ensures var fired := Fire(Unfile(s, x), x, s.epoch + now);
            && x in fired.timers && fired.timers[x] == s.timers[x] && fired.modulus == s.modulus
            && Kept(s, Reload(fired, x, now)) && OnlyConcerns(s, Reload(fired, x, now), x)
  {
    hide Distinct, Kept, OnlyConcerns, Reload;
    var unfiled := Unfile(s, x);
    var fired := Fire(unfiled, x, s.epoch + now);
    UnfileSame(s, x);
    UnfileKeeps(s, x);
    FireKeeps(unfiled, x, s.epoch + now);
    ReloadKeeps(fired, x, now);
    Chain(s, unfiled, fired, Reload(fired, x, now), x);
  }

  lemma ExpireStepCalls(s: Service, now: nat)
    requires Ok(s, {}) && now < s.modulus && s.current != []
    ensures s.current[0] in s.timers && s.timers[s.current[0]].value < s.modulus
            && s.timers[s.current[0]].period < s.modulus
    ensures ExpireStep(s, now).callbacks == s.callbacks + [s.current[0]]
    ensures ExpireStep(s, now).lives == Fire(s, s.current[0], s.epoch + now).lives
  {
    hide Ok, Reload, Kept, OnlyConcerns;
    HeadIsFiled(s, {});
    var x := s.current[0];
    UnfileSame(s, x);
    hide Unfile;
    ReloadKeeps(Fire(Unfile(s, x), x, s.epoch + now), x, now);
  }

  lemma ExpireStepRenews(s: Service, now: nat)
    requires Ok(s, {}) && now < s.modulus && s.current != []
    requires ValueOf(s.timers, s.current[0]) <= now
    ensures s.current[0] in s.timers && s.timers[s.current[0]].value < s.modulus
            && s.timers[s.current[0]].period < s.modulus
    ensures var s', x := ExpireStep(s, now), s.current[0];
            if s.timers[x].autoReload then Renewed(s', x, s.epoch + s.timers[x].value, s.epoch + now)
            else !Filed(s', x) && x in s'.timers && !s'.timers[x].active
  {
    hide Ok, Reload, Renewed;
    HeadIsFiled(s, {});
    UnfiledHead(s, {});
    var x := s.current[0];
    var fired := Fire(Unfile(s, x), x, s.epoch + now);
    ReloadStops(fired, x, now);
    hide Without;
    if s.timers[x].autoReload {
      ReloadRenews(fired, x, now);
    }
  }

  lemma ExpireStepAccounted(s: Service, now: nat, room: nat)
    requires Ok(s, {}) && now < s.modulus && s.current != [] && Accounted(s, s.epoch + now, room)
    requires ValueOf(s.timers, s.current[0]) <= now
    requires (Reloading(s.timers, s.current[0])
              && s.epoch + ValueOf(s.timers, s.current[0]) + PeriodOf(s.timers, s.current[0]) <= s.epoch + now) ==>
               |s.queue| < room
    ensures s.current[0] in s.timers && s.timers[s.current[0]].value < s.modulus
            && s.timers[s.current[0]].period < s.modulus
    ensures Accounted(ExpireStep(s, now), s.epoch + now, room)
  {
    hide Ok, Accounted, Reload;
    HeadIsFiled(s, {});
    var x := s.current[0];
    var unfiled := Unfile(s, x);
    var fired := Fire(unfiled, x, s.epoch + now);
    AccountedSame(s, unfiled, s.epoch + now, room);
    FireAccounted(unfiled, x, s.epoch + now, room);
    hide Without;
    ReloadAccounted(fired, x, now, room);
  }

  lemma ReloadStops(s: Service, x: TimerId, now: nat)
    requires s.modulus > 0 && now < s.modulus && x in s.timers && !Filed(s, x)
    requires s.timers[x].value < s.modulus && s.timers[x].period < s.modulus
    ensures var s' := Reload(s, x, now);
            !s.timers[x].autoReload ==> !Filed(s', x) && x in s'.timers && !s'.timers[x].active
  {
    hide With, Decide, WrapAdd;
  }

  // ----- commands of tasks -----

  /** xTimerGenericCommand called by a task, when there is room: a START begins a life
      for an auto-reload timer that is at rest, and any other command ends the life of
      its timer. */
  ghost function Issued(s: Service, command: Command, stamp: nat): Service
    requires command.timer in s.timers
  {
    var x := command.timer;
    if command.Start? && s.timers[x].autoReload && !Filed(s, x) && NoCommand(s.queue, x) then
      Post(Begin(s, x, stamp), command, stamp)
    else
      Post(Forget(s, x), command, stamp)
  }

  lemma IssuedOk(s: Service, command: Command, stamp: nat)
    requires Ok(s, {}) && GoodCommand(s, command)
    requires command.Start? ==> s.modulus > 0 && GoodStart(command.time, stamp, s.modulus)
    ensures Ok(Issued(s, command, stamp), {})
  {
    hide Ok, GoodStart, NoCommand, Filed;
    var x := command.timer;
    if command.Start? && s.timers[x].autoReload && !Filed(s, x) && NoCommand(s.queue, x) {
      StartLifeOk(s, x, command.time, stamp);
    } else {
      SendOk(s, command, stamp);
    }
  }

  lemma IssuedKeeps(s: Service, command: Command, stamp: nat)
    requires command.timer in s.timers
    ensures var s' := Issued(s, command, stamp);
            && OnlyConcerns(s, s', command.timer) && s'.callbacks == s.callbacks
            && forall y :: y in s.lives && y != command.timer ==> GoesOn(s, s', y)
  {
    PostKeeps(s, command, stamp);
    var s' := Issued(s, command, stamp);
    forall y | y != command.timer ensures Alone(s, s', y) {
      assert Alone(s, Post(s, command, stamp), y);
    }
    hide Kept, OnlyConcerns, NoCommand;
  }

  lemma IssuedAccounted(s: Service, command: Command, stamp: nat, now: nat, room: nat)
    requires command.timer in s.timers && Accounted(s, now, room) && |s.queue| < room && stamp <= now
    ensures Accounted(Issued(s, command, stamp), now, room)
  {
    hide Accounted;
    var x := command.timer;
    if command.Start? && s.timers[x].autoReload && !Filed(s, x) && NoCommand(s.queue, x) {
      BeginAccounted(s, Begin(s, x, stamp), x, stamp, now, room);
      PostAccounted(Begin(s, x, stamp), command, stamp, now, room);
    } else {
      ForgetAccounted(s, x, now, room);
      PostAccounted(Forget(s, x), command, stamp, now, room);
    }
  }

  lemma ForgetAccounted(s: Service, x: TimerId, now: nat, room: nat)
    requires Accounted(s, now, room)
    ensures Accounted(Forget(s, x), now, room)
  {
  }
}

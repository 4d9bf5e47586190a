/** The timer service as an abstract machine, and what holds of an auto-reload timer
    over its whole runs. */
module TimerRuns {
  import opened TimerState
  import opened TimerSteps

  /** The service, the absolute times of the last sample and of the last event, and the
      length of the command queue. */
  datatype Machine = Machine(service: Service, sample: nat, clock: nat, room: nat)

  ghost predicate Good(k: Machine) {
    && Ok(k.service, {})
    && k.service.epoch <= k.sample < k.service.epoch + k.service.modulus && k.sample <= k.clock
    && Accounted(k.service, k.clock, k.room)
  }

  /** The daemon receives a command, or processes its timers, at a time; a task issues a
      command; a timer is created. */
  datatype Step =
    | Receive(now: nat)
    | Process(now: nat)
    | Issue(command: Command, stamp: nat, now: nat)
    | Create(timer: TimerId, period: nat, autoReload: bool)

  /** The STARTs that a list switch at the time now posts once the first command of the
      queue has been taken and its timer removed from its list. */
  ghost function SwitchPosts(s: Service, now: nat): nat
    requires s.queue != []
  {
    if now >= s.epoch + s.modulus then Reloads(Unfile(s, s.queue[0].timer).current, s.timers) else 0
  }

  /** Whether the first command is a START that posts another one. */
  ghost predicate StartPosts(s: Service, now: nat)
    requires s.queue != []
  {
    && s.queue[0].Start? && s.stamps != [] && Reloading(s.timers, s.queue[0].timer)
    && s.stamps[0] + PeriodOf(s.timers, s.queue[0].timer) <= now
  }

  /** The first command is not a START of an age that is decided wrongly. */
  ghost predicate FirstIsTimely(s: Service, now: nat)
    requires s.queue != [] && s.modulus > 0
  {
    s.queue[0].Start? && s.stamps != [] ==>
      now < s.stamps[0] || Timely(now - s.stamps[0], PeriodOf(s.timers, s.queue[0].timer), s.modulus)
  }

  /** A reloading timer with this expiry has expired again already. */
  ghost predicate Overrun(s: Service, x: TimerId, expiry: nat, now: nat) {
    Reloading(s.timers, x) && s.epoch + expiry + PeriodOf(s.timers, x) <= now
  }

  /** The clock goes on, less than a full wrap lies between samples, and the queue has
      room for what the daemon posts. */
  ghost predicate Enabled(k: Machine, step: Step) {
    var s := k.service;
    match step
    case Receive(now) =>
      && k.clock <= now < k.sample + s.modulus && s.modulus > 0
      && s.queue != [] && FirstIsTimely(s, now)
      && |s.queue| - 1 + SwitchPosts(s, now) + (if StartPosts(s, now) then 1 else 0) <= k.room
    case Process(now) =>
      && k.clock <= now < k.sample + s.modulus
      && (now >= s.epoch + s.modulus ==> |s.queue| + Reloads(s.current, s.timers) <= k.room)
      && ((now < s.epoch + s.modulus && s.current != []
           && Overrun(s, s.current[0], ValueOf(s.timers, s.current[0]), now)) ==>
            |s.queue| < k.room)
    case Issue(command, stamp, now) =>
      && GoodCommand(s, command) && k.clock <= now && stamp <= now
      && (command.Start? ==> s.modulus > 0 && GoodStart(command.time, stamp, s.modulus))
    case Create(x, period, _) =>
      x !in s.timers && 0 < period < s.modulus
  }

  ghost function Received(s: Service, now: nat): Service
    requires Ok(s, {}) && s.queue != [] && s.epoch <= now < s.epoch + 2 * s.modulus
  {
    TakenOk(s, now);
    Obeyed(Taken(s, now), s.queue[0], s.stamps[0], now)
  }

  /** prvProcessTimerOrBlockTask: after a list switch nothing more is done. */
  ghost function Processed(s: Service, now: nat): Service
    requires Ok(s, {}) && s.epoch <= now < s.epoch + 2 * s.modulus
  {
    if now >= s.epoch + s.modulus then Switched(s, now)
    else if s.current != [] && ValueOf(s.timers, s.current[0]) <= now - s.epoch then
      HeadIsFiled(s, {});
      ExpireStep(s, now - s.epoch)
    else s
  }

  ghost function Apply(k: Machine, step: Step): Machine
    requires Good(k) && Enabled(k, step)
  {
    var s := k.service;
    match step
    case Receive(now) => Machine(Received(s, now), now, now, k.room)
    case Process(now) => Machine(Processed(s, now), now, now, k.room)
    case Issue(command, stamp, now) =>
      k.(service := if |s.queue| < k.room then Issued(s, command, stamp) else s, clock := now)
    case Create(x, period, autoReload) => k.(service := Retime(s, x, Timer(period, autoReload, false, 0)))
  }

  /** A task issues a command for the timer. */
  predicate IsFor(step: Step, x: TimerId) {
    step.Issue? && step.command.timer == x
  }

  // ----- what every step keeps -----

  lemma ReceiveOk(s: Service, now: nat, room: nat)
    requires Ok(s, {}) && s.queue != [] && s.epoch <= now < s.epoch + 2 * s.modulus && Accounted(s, now, room)
    requires FirstIsTimely(s, now)
    requires |s.queue| - 1 + SwitchPosts(s, now) + (if StartPosts(s, now) then 1 else 0) <= room
    ensures var s' := Received(s, now);
            && Ok(s', {}) && Accounted(s', now, room) && Kept(s, s')
            && s'.modulus == s.modulus && s'.epoch <= now < s'.epoch + s'.modulus
    ensures OnlyConcerns(Taken(s, now), Received(s, now), s.queue[0].timer)
    ensures s.queue[0].timer in s.timers
    ensures Received(s, now).callbacks == Taken(s, now).callbacks
              + if s.queue[0].Start? && s.stamps[0] + s.timers[s.queue[0].timer].period <= now then
                  [s.queue[0].timer] else []
  {
    hide Ok, Kept, OnlyConcerns, Accounted, Obeyed;
    TakenOk(s, now);
    StampsArePast(s, now, room);
    hide Sampled, Untouched, CalledOnce, NoCommand, Timely;
    TakenKeeps(s, now, room);
    ObeyedOk(Taken(s, now), s.queue[0], s.stamps[0], now, room);
    KeptTwice(s, Taken(s, now), Received(s, now));
    SameEpoch(Taken(s, now), Received(s, now), s.queue[0].timer);
  }

  lemma StampsArePast(s: Service, now: nat, room: nat)
    requires Accounted(s, now, room)
    ensures forall i :: 0 <= i < |s.stamps| ==> s.stamps[i] <= now
  {
  }

  lemma SameEpoch(s: Service, s': Service, x: TimerId)
    requires OnlyConcerns(s, s', x)
    ensures s'.epoch == s.epoch && s'.modulus == s.modulus
  {
  }

  lemma ProcessOk(s: Service, now: nat, room: nat)
    requires Ok(s, {}) && s.epoch <= now < s.epoch + 2 * s.modulus && Accounted(s, now, room)
    requires now >= s.epoch + s.modulus ==> |s.queue| + Reloads(s.current, s.timers) <= room
    requires (now < s.epoch + s.modulus && s.current != []
              && Overrun(s, s.current[0], ValueOf(s.timers, s.current[0]), now)) ==> |s.queue| < room
    ensures var s' := Processed(s, now);
            && Ok(s', {}) && Accounted(s', now, room) && Kept(s, s')
            && s'.modulus == s.modulus && s'.epoch <= now < s'.epoch + s'.modulus
  {
    hide Ok, Kept, OnlyConcerns, Accounted, ExpireStep, Reloads;
    if now >= s.epoch + s.modulus {
      SampledOk(s, {}, now);
      SampledKeeps(s, {}, now, room);
      hide Switched, Untouched, CalledOnce;
    } else if s.current != [] && ValueOf(s.timers, s.current[0]) <= now - s.epoch {
      ExpireStepOk(s, now - s.epoch);
      ExpireStepKeeps(s, now - s.epoch);
      ExpireStepAccounted(s, now - s.epoch, room);
      SameEpoch(s, ExpireStep(s, now - s.epoch), s.current[0]);
    } else {
      KeptItself(s, 0);
    }
  }

  /** Every step keeps the invariant, and every live timer goes on but one that a task
      issues a command for. */
  lemma StepOk(k: Machine, step: Step)
    requires Good(k) && Enabled(k, step)
    ensures var k' := Apply(k, step);
            && Good(k') && k'.service.modulus == k.service.modulus && k.service.callbacks <= k'.service.callbacks
            && forall x :: x in k.service.lives && !IsFor(step, x) ==> GoesOn(k.service, k'.service, x)
  {
    hide Ok, Accounted, Received, Processed, Issued, OnlyConcerns;
    var s := k.service;
    match step
    case Receive(now) =>
      AccountedLater(s, k.clock, now, k.room);
      ReceiveOk(s, now, k.room);
    case Process(now) =>
      AccountedLater(s, k.clock, now, k.room);
      ProcessOk(s, now, k.room);
    case Issue(command, stamp, now) =>
      AccountedLater(s, k.clock, now, k.room);
      KeptItself(s, command.timer);
      if |s.queue| < k.room {
        IssuedOk(s, command, stamp);
        IssuedKeeps(s, command, stamp);
        IssuedAccounted(s, command, stamp, now, k.room);
        SameEpoch(s, Issued(s, command, stamp), command.timer);
      }
    case Create(x, period, autoReload) =>
      CreatedOk(s, x, Timer(period, autoReload, false, 0), k.clock, k.room);
  }

  lemma CreatedOk(s: Service, x: TimerId, t: Timer, now: nat, room: nat)
    requires Ok(s, {}) && x !in s.timers && 0 < t.period < s.modulus && t.value < s.modulus && Accounted(s, now, room)
    ensures var s' := Retime(s, x, t);
            Ok(s', {}) && Accounted(s', now, room) && Kept(s, s') && OnlyConcerns(s, s', x) && !Filed(s', x)
  {
    hide Accounted;
    CreateOk(s, x, t);
    AccountedSame(s, Retime(s, x, t), now, room);
  }

  // ----- runs -----

  ghost predicate IsRun(k: Machine, steps: seq<Step>)
    requires Good(k)
    decreases |steps|
  {
    steps == [] || (
      && Enabled(k, steps[0])
      && (StepOk(k, steps[0]); IsRun(Apply(k, steps[0]), steps[1..])))
  }

  ghost function Final(k: Machine, steps: seq<Step>): Machine
    requires Good(k) && IsRun(k, steps)
    decreases |steps|
  {
    if steps == [] then k
    else
      StepOk(k, steps[0]);
      Final(Apply(k, steps[0]), steps[1..])
  }

  ghost predicate LeavesAlone(steps: seq<Step>, x: TimerId) {
    forall i :: 0 <= i < |steps| ==> !IsFor(steps[i], x)
  }

  lemma {:induction false} RunKeeps(k: Machine, steps: seq<Step>, x: TimerId)
    requires Good(k) && IsRun(k, steps) && LeavesAlone(steps, x) && x in k.service.lives
    ensures Good(Final(k, steps)) && GoesOn(k.service, Final(k, steps).service, x)
    ensures k.service.callbacks <= Final(k, steps).service.callbacks
    decreases |steps|
  {
    hide Good, Enabled, Apply;
    if steps != [] {
      StepOk(k, steps[0]);
      assert !IsFor(steps[0], x);
      assert LeavesAlone(steps[1..], x) by {
        assert forall i :: 0 <= i < |steps[1..]| ==> steps[1..][i] == steps[i+1];
      }
      RunKeeps(Apply(k, steps[0]), steps[1..], x);
    }
  }

  /** From one state to a later one a live timer goes on and is on its instants, and each
      callback added to the log is one that is added to its life. */
  ghost predicate KeepsItsInstants(s: Service, s': Service, x: TimerId)
    requires x in s.lives
  {
    && GoesOn(s, s', x) && OnInstants(s', x)
    && multiset(s'.callbacks)[x] + |s.lives[x].calls| == multiset(s.callbacks)[x] + |s'.lives[x].calls|
  }

  /** In every run in which no task issues a command for it, a live auto-reload timer
      keeps the instants c + p, c + 2p, ... of its life.  Each callback that is added to
      the log is one that is added to its life, the j-th does not precede c + jp, and
      after k of them the timer is filed under c + (k+1)p or has a START pending that
      carries c + kp: through late processing, list switches and wraps. */
  lemma FiresOncePerInstantInEveryRun(k: Machine, steps: seq<Step>, x: TimerId)
    requires Good(k) && IsRun(k, steps) && LeavesAlone(steps, x) && x in k.service.lives
    ensures KeepsItsInstants(k.service, Final(k, steps).service, x)
  {
    hide Good, IsRun, Final, LeavesAlone, OnInstants;
    RunKeeps(k, steps, x);
    var k' := Final(k, steps);
    LogMatchesLife(k, x);
    LogMatchesLife(k', x);
    FiresOncePerInstant(k'.service, x);
  }

  lemma LogMatchesLife(k: Machine, x: TimerId)
    requires Good(k) && x in k.service.lives
    ensures Ok(k.service, {})
    ensures multiset(k.service.callbacks)[x] == k.service.lives[x].before + |k.service.lives[x].calls|
  {
  }

  /** A live timer has been called back exactly once for each of its instants up to the
      present. */
  ghost predicate UpToDate(s: Service, x: TimerId, now: nat)
    requires x in s.lives
  {
    && x in s.timers
    && var c, p, n := s.lives[x].origin, s.timers[x].period, |s.lives[x].calls|;
       c + n * p <= now < c + (n + 1) * p
  }

  /** No instant is lost: once no filed timer has expired and no command for it is
      pending, a live timer is up to date. */
  lemma NoInstantIsLost(k: Machine, x: TimerId)
    requires Good(k) && x in k.service.lives && NoCommand(k.service.queue, x)
    requires forall y :: Filed(k.service, y) ==> Expiry(k.service, y) > k.clock
    ensures UpToDate(k.service, x, k.clock)
  {
    var s, life := k.service, k.service.lives[x];
    FiresOncePerInstant(s, x);
    var c, p, n := life.origin, s.timers[x].period, |life.calls|;
    assert Filed(s, x);
    hide Ok;
    if n > 0 {
      assert life.calls[n-1] >= c + (n - 1 + 1) * p;
    }
  }

  lemma AllUpToDate(k: Machine)
    requires Good(k) && forall y :: Filed(k.service, y) ==> Expiry(k.service, y) > k.clock
    ensures forall x :: x in k.service.lives && NoCommand(k.service.queue, x) ==> UpToDate(k.service, x, k.clock)
  {
    hide Ok, Accounted, UpToDate, NoCommand;
    forall x | x in k.service.lives && NoCommand(k.service.queue, x) ensures UpToDate(k.service, x, k.clock) {
      NoInstantIsLost(k, x);
    }
  }
}

/** timers.c: the timer service task and the queue that feeds it. */
module Timers {
  import opened Arithmetic
  import opened RoundRobin
  import opened Periods
  import opened TimerState
  import opened TimerSteps
  import TimerRuns

  /** How long the daemon waits for a command when no timer has expired. */
  datatype Wait = NoWait | WaitFor(ticks: nat) | WaitIndefinitely

  class TimerService {
    const modulus: nat
    const queueLength: nat
    var timers: map<TimerId, Timer>
    var current: seq<TimerId>
    var overflow: seq<TimerId>
    var queue: seq<Command>
    var lastTime: nat
    /** The timers whose callbacks have been called, in order. */
    var callbacks: seq<TimerId>
    /** The absolute time of the last event. */
    ghost var clock: nat
    ghost var epoch: nat
    ghost var stamps: seq<nat>
    ghost var lives: map<TimerId, Life>

    ghost function Snapshot(): Service
      reads this
    {
      Service(modulus, timers, current, overflow, queue, callbacks, epoch, stamps, lives)
    }

    /** The service as the abstract machine of TimerRuns. */
    ghost function Abstract(): TimerRuns.Machine
      reads this
    {
      TimerRuns.Machine(Snapshot(), epoch + lastTime, clock, queueLength)
    }

    /** The last sample fits the clock, and everything is accounted for. */
    ghost predicate Timed()
      reads this
    {
      lastTime < modulus && epoch + lastTime <= clock && Accounted(Snapshot(), clock, queueLength)
    }

    ghost predicate Good(inHand: set<TimerId>)
      reads this
    {
      Ok(Snapshot(), inHand) && Timed()
    }

    ghost predicate Valid()
      reads this
    {
      Good({})
    }

    /** prvCheckForValidListAndQueue */
    constructor (modulus: nat, queueLength: nat)
      requires modulus > 1
      ensures Valid() && this.modulus == modulus && this.queueLength == queueLength
      ensures timers == map[] && current == overflow == [] && queue == [] && callbacks == [] && lives == map[]
      ensures clock == epoch == lastTime == 0 && stamps == []
    {
      this.modulus, this.queueLength := modulus, queueLength;
      timers, current, overflow, queue := map[], [], [], [];
      lastTime, callbacks := 0, [];
      clock, epoch, stamps, lives := 0, 0, [], map[];
    }

    method CallBack(x: TimerId, ghost at: nat)
      modifies this`callbacks, this`lives
      ensures Snapshot() == Fire(old(Snapshot()), x, at)
    {
      callbacks := callbacks + [x];
      if x in lives {
        lives := lives[x := lives[x].(calls := lives[x].calls + [at])];
      }
    }

    /** xTimerGenericCommand as the daemon uses it, which must succeed. */
    method PostStart(x: TimerId, time: nat, ghost stamp: nat)
      requires |queue| < queueLength
      modifies this`queue, this`stamps
      ensures Snapshot() == Post(old(Snapshot()), Start(x, time), stamp)
    {
      queue := queue + [Start(x, time)];
      stamps := stamps + [stamp];
    }

    /** uxListRemove on a timer's list item, if it is in a list. */
    method Remove(x: TimerId)
      modifies this`current, this`overflow
      ensures Snapshot() == Unfile(old(Snapshot()), x)
    {
      if x in current {
        current := Without(current, x);
      }
      if x in overflow {
        overflow := Without(overflow, x);
      }
    }

    method SetTimer(x: TimerId, t: Timer)
      modifies this`timers
      ensures Snapshot() == Retime(old(Snapshot()), x, t)
    {
      timers := timers[x := t];
    }

    /** prvInsertTimerInActiveList */
    method InsertTimerInActiveList(x: TimerId, nextExpiry: nat, timeNow: nat, commandTime: nat)
        returns (processNow: bool)
      requires x in timers && timeNow < modulus && commandTime < modulus
      modifies this`timers, this`current, this`overflow
      ensures var decision := Decide(nextExpiry, timeNow, commandTime, old(timers[x].period), modulus);
              && Snapshot() == FileAs(old(Snapshot()), x, nextExpiry, decision)
              && (processNow <==> decision == ProcessNow)
    {
      hide With;
      processNow := false;
      timers := timers[x := timers[x].(value := nextExpiry)];
      if nextExpiry <= timeNow {
        if WrapSub(timeNow, commandTime, modulus) >= timers[x].period {
          processNow := true;
        } else {
          overflow := With(overflow, timers, x);
        }
      } else {
        if timeNow < commandTime && nextExpiry >= commandTime {
          processNow := true;
        } else {
          current := With(current, timers, x);
        }
      }
    }

    /** One iteration of prvSwitchTimerLists: the first timer is called back, and
        filed again or sent a START if it reloads. */
    method DrainOne(ghost inHand: set<TimerId>)
      requires Good(inHand) && current != [] && epoch + modulus <= clock
      requires |queue| + Reloads(current, timers) <= queueLength
      modifies this`timers, this`current, this`overflow, this`queue, this`callbacks, this`stamps, this`lives
      ensures Good(inHand) && old(current[0]) in old(timers)
      ensures Snapshot() == DrainStep(old(Snapshot()), clock)
      ensures callbacks == old(callbacks) + [old(current[0])]
    {
      hide Ok, With, Accounted, Kept;
      ghost var was := Snapshot();
      var x := current[0];
      HeadIsFiled(was, inHand);
      DrainStepOk(was, inHand, clock);
      DrainStepKeeps(was, inHand, clock, queueLength);
      PostedIsRoom(was, clock, queueLength);
      var expiry := timers[x].value;
      ghost var stamp := epoch + expiry;
      Remove(x);
      CallBack(x, clock);
      if timers[x].autoReload {
        var reload := WrapAdd(expiry, timers[x].period, modulus);
        if reload > expiry {
          SetTimer(x, timers[x].(value := reload));
          current := With(current, timers, x);
        } else {
          PostStart(x, expiry, stamp);
        }
      }
    }

    /** prvSwitchTimerLists.  Each auto-reload timer of the current list ends up with
        one START, for which there must be room; one-shot timers need none. */
    method SwitchTimerLists(ghost inHand: set<TimerId>)
      requires Good(inHand) && epoch + modulus <= clock
      requires |queue| + Reloads(current, timers) <= queueLength
      modifies this`timers, this`current, this`overflow, this`queue, this`callbacks, this`stamps, this`lives, this`epoch
      ensures Snapshot() == Switched(old(Snapshot()), clock)
      ensures Ok(Snapshot(), inHand) && Accounted(Snapshot(), clock, queueLength)
      ensures Kept(old(Snapshot()), Snapshot()) && Untouched(old(Snapshot()), Snapshot())
      ensures epoch == old(epoch) + modulus && current == old(overflow) && overflow == []
      ensures old(queue) <= queue && old(stamps) <= stamps
      ensures |queue| == old(|queue| + Reloads(current, timers))
      ensures CalledOnce(old(Snapshot()), [], callbacks)
    {
      hide Ok, Accounted, Kept, DrainStep, Drained, Untouched, CalledOnce;
      ghost var was := Snapshot();
      SwitchedOk(was, inHand, clock);
      DrainedKeeps(was, inHand, clock, queueLength);
      SwitchAccounts(was, Drained(was, clock), clock, queueLength);
      while current != []
        invariant Good(inHand) && epoch == was.epoch && clock == old(clock) && lastTime == old(lastTime)
        invariant |queue| + Reloads(current, timers) == |was.queue| + Reloads(was.current, was.timers)
        invariant Drained(Snapshot(), clock) == Drained(was, clock)
        decreases LeftOf(Snapshot())
      {
        DrainProgress(Snapshot(), inHand, clock);
        DrainMore(Snapshot(), clock);
        DrainOne(inHand);
      }
      NothingToDrain(Snapshot(), clock);
      current, overflow := overflow, current;
      epoch := epoch + modulus;
    }

    /** prvSampleTimeNow, at the absolute time now: the tick count that is read, and
        the last one read, tell whether the count has wrapped, provided that less
        than a full wrap lies between them. */
    method SampleTimeNow(tickCount: nat, ghost now: nat, ghost inHand: set<TimerId>)
      returns (timeNow: nat, switched: bool)
      requires Good(inHand) && tickCount == now % modulus && clock <= now < epoch + lastTime + modulus
      requires now >= epoch + modulus ==> |queue| + Reloads(current, timers) <= queueLength
      modifies this
      ensures Good(inHand) && clock == now == epoch + timeNow && timeNow == lastTime == tickCount
      ensures Snapshot() == Sampled(old(Snapshot()), now)
      ensures Kept(old(Snapshot()), Snapshot()) && Untouched(old(Snapshot()), Snapshot())
      ensures switched <==> now >= old(epoch) + modulus
      ensures !switched ==> Snapshot() == old(Snapshot())
      ensures switched ==> current == old(overflow) && overflow == [] && epoch == old(epoch) + modulus
      ensures switched ==> CalledOnce(old(Snapshot()), [], callbacks)
      ensures old(queue) <= queue && old(stamps) <= stamps
      ensures switched ==> |queue| == old(|queue| + Reloads(current, timers))
    {
      hide Ok, Accounted, Kept, Untouched, CalledOnce, Switched;
      EpochIsWhole(Snapshot(), inHand);
      WrapIsDetected(epoch, lastTime, now, modulus);
      UntouchedStart(Snapshot());
      KeptItself(Snapshot(), 0);
      AccountedLater(Snapshot(), clock, now, queueLength);
      clock := now;
      timeNow := tickCount;
      if timeNow < lastTime {
        SwitchTimerLists(inHand);
        switched := true;
      } else {
        switched := false;
      }
      lastTime := timeNow;
    }

    /** prvProcessExpiredTimer */
    method ProcessExpiredTimer(nextExpireTime: nat, timeNow: nat)
      requires Valid() && current != []
      requires current[0] in timers ==> nextExpireTime == timers[current[0]].value
      requires nextExpireTime <= timeNow == lastTime && clock == epoch + timeNow
      requires TimerRuns.Overrun(Snapshot(), current[0], nextExpireTime, clock) ==> |queue| < queueLength
      modifies this`timers, this`current, this`overflow, this`queue, this`callbacks, this`stamps, this`lives
      ensures Valid() && old(current[0]) in old(timers)
      ensures old(timers[current[0]]).value < modulus && old(timers[current[0]]).period < modulus
      ensures Snapshot() == ExpireStep(old(Snapshot()), timeNow)
      ensures callbacks == old(callbacks) + [old(current[0])]
      ensures lives == Fire(old(Snapshot()), old(current[0]), clock).lives
      ensures Kept(old(Snapshot()), Snapshot()) && OnlyConcerns(old(Snapshot()), Snapshot(), old(current[0]))
      ensures if old(timers[current[0]].autoReload) then
                Renewed(Snapshot(), old(current[0]), epoch + nextExpireTime, clock)
              else
                !Filed(Snapshot(), old(current[0])) && old(current[0]) in timers && !timers[old(current[0])].active
    {
      hide Ok, Accounted, Kept, OnlyConcerns, Renewed, Filed, With, Without, Reload, ExpireStep;
      ghost var was := Snapshot();
      HeadIsFiled(was, {});
      ExpireStepOk(was, timeNow);
      ExpireStepKeeps(was, timeNow);
      ExpireStepCalls(was, timeNow);
      ExpireStepRenews(was, timeNow);
      ExpireStepAccounted(was, timeNow, queueLength);
      QueueHasRoom(was, clock, queueLength);
      var x := current[0];
      DecisionIsExact(nextExpireTime, timers[x].period, epoch, timeNow, modulus);
      Remove(x);
      ReloadTimer(x, nextExpireTime, timeNow);
      CallBack(x, clock);
      ExpireOrder(was, timeNow, Snapshot());
    }

    /** The part of prvProcessExpiredTimer that deals with the timer itself. */
    method ReloadTimer(x: TimerId, nextExpireTime: nat, timeNow: nat)
      requires x in timers && nextExpireTime == timers[x].value <= timeNow < modulus && timers[x].period < modulus
      requires var reload := WrapAdd(nextExpireTime, timers[x].period, modulus);
               (timers[x].autoReload
                && Decide(reload, timeNow, nextExpireTime, timers[x].period, modulus) == ProcessNow) ==>
                 |queue| < queueLength
      requires |queue| <= queueLength
      modifies this`timers, this`current, this`overflow, this`queue, this`stamps
      ensures |queue| <= queueLength
      ensures Snapshot() == Reload(old(Snapshot()), x, timeNow)
      ensures forall i :: 0 <= i < |stamps| ==> stamps[i] in old(stamps) || stamps[i] == epoch + nextExpireTime
    {
      hide With;
      if timers[x].autoReload {
        var processNow := InsertTimerInActiveList(
          x, WrapAdd(nextExpireTime, timers[x].period, modulus), timeNow, nextExpireTime);
        if processNow {
          PostStart(x, nextExpireTime, epoch + nextExpireTime);
        }
      } else {
        SetTimer(x, timers[x].(active := false));
      }
    }

    /** The first part of an iteration of prvProcessReceivedCommands. */
    method TakeCommand(tickCount: nat, ghost now: nat) returns (command: Command, ghost stamp: nat)
      requires Valid() && queue != []
      requires tickCount == now % modulus && clock <= now < epoch + lastTime + modulus
      requires |queue| - 1 + TimerRuns.SwitchPosts(Snapshot(), now) <= queueLength
      modifies this
      ensures |old(stamps)| > 0 && stamp == old(stamps[0]) && command == old(queue[0])
      ensures Snapshot() == Taken(old(Snapshot()), now) && clock == now == epoch + lastTime
      ensures Good({command.timer}) && InHand(Snapshot(), command, stamp, now) && stamp <= now
      ensures Kept(old(Snapshot()), Snapshot())
      ensures |queue| == old(|queue| - 1 + TimerRuns.SwitchPosts(Snapshot(), now))
      ensures old(queue)[1..] <= queue && old(stamps)[1..] <= stamps
      ensures now < old(epoch) + modulus ==> Snapshot() == Unfile(Pop(old(Snapshot())), command.timer)
      ensures now >= old(epoch) + modulus ==>
                && epoch == old(epoch) + modulus && overflow == []
                && current == Unfile(Pop(old(Snapshot())), command.timer).overflow
                && Untouched(Unfile(Pop(old(Snapshot())), command.timer), Snapshot())
                && CalledOnce(Unfile(Pop(old(Snapshot())), command.timer), [], callbacks)
      ensures NoCommand(old(queue)[1..], command.timer) ==> NoCommand(queue, command.timer)
      ensures command.timer in lives <==> command.timer in old(lives)
      ensures command.timer in lives ==> lives[command.timer] == old(lives)[command.timer]
      ensures command.timer in old(timers) && timers[command.timer] == old(timers)[command.timer]
    {
      hide Ok, Accounted, Kept, Untouched, CalledOnce, Sampled, InHand, NoCommand, Without;
      ghost var was := Snapshot();
      TakenOk(was, now);
      AccountedLater(was, clock, now, queueLength);
      TimerRuns.StampsArePast(was, now, queueLength);
      TakenKeeps(was, now, queueLength);
      PopOk(was, {});
      PopKeeps(was, clock, queueLength);
      command := queue[0];
      stamp := stamps[0];
      queue, stamps := queue[1..], stamps[1..];
      var x := command.timer;
      assert {} + {x} == {x} && {x} + {x} == {x};
      UnfileOk(Pop(was), {x}, x);
      Remove(x);
      var timeNow, switched := SampleTimeNow(tickCount, now, {x});
    }

    /** The START branch, for a command of an age that is decided rightly: the timer is
        called back if it has expired, and filed under the right instant if it has not.
        An auto-reload timer without another command pending begins a life at the time
        the command carries, unless it is already live. */
    method StartTimer(command: Command, ghost stamp: nat)
      requires command.Start? && Good({command.timer}) && clock == epoch + lastTime
      requires InHand(Snapshot(), command, stamp, clock) && stamp <= clock
      requires Timely(clock - stamp, timers[command.timer].period, modulus)
      requires timers[command.timer].autoReload && stamp + timers[command.timer].period <= clock ==>
              |queue| < queueLength
      modifies this`timers, this`current, this`overflow, this`queue, this`callbacks, this`stamps, this`lives
      ensures Valid() && command.timer in timers
      ensures Snapshot() == Obeyed(old(Snapshot()), command, stamp, clock)
      ensures Kept(old(Snapshot()), Snapshot()) && OnlyConcerns(old(Snapshot()), Snapshot(), command.timer)
      ensures Started(Snapshot(), command.timer, stamp, clock)
      ensures callbacks == old(callbacks)
                + if stamp + old(timers[command.timer]).period <= clock then [command.timer] else []
      ensures Restarted(old(lives), lives, old(queue), old(timers)[command.timer], command.timer, stamp, clock)
    {
      hide Ok, Accounted, Kept, OnlyConcerns, Started, Restarted, GoodStart, Timely, Begun, StartStep, ProcessedNow;
      var x, time := command.timer, command.time;
      ghost var was := Snapshot();
      StartNeedsRoom(was, x, time, stamp, clock);
      ObeyedStart(was, x, time, stamp, clock, queueLength);
      StartedIsTimer(StartStep(Begun(was, x, stamp), x, time, stamp, lastTime), x, stamp, clock);
      BeginLife(x, stamp);
      ApplyStart(x, time, stamp);
    }

    /** An auto-reload timer in hand begins a life, unless it is live or has another
        command pending. */
    ghost method BeginLife(x: TimerId, stamp: nat)
      requires x in timers
      modifies this`lives
      ensures Snapshot() == Begun(old(Snapshot()), x, stamp)
    {
      if x !in lives && timers[x].autoReload && NoCommand(queue, x) {
        lives := lives[x := Life(stamp, multiset(callbacks)[x], [])];
      }
    }

    method ApplyStart(x: TimerId, time: nat, ghost stamp: nat)
      requires x in timers && lastTime < modulus && time < modulus && timers[x].period < modulus
      requires timers[x].autoReload && ProcessedNow(Snapshot(), x, time, lastTime) ==> |queue| < queueLength
      modifies this`timers, this`current, this`overflow, this`queue, this`callbacks, this`stamps, this`lives
      ensures Snapshot() == StartStep(old(Snapshot()), x, time, stamp, lastTime)
    {
      hide With, Decide, StartStep;
      ghost var was := Snapshot();
      SetTimer(x, timers[x].(active := true));
      var next := WrapAdd(time, timers[x].period, modulus);
      var processNow := InsertTimerInActiveList(x, next, lastTime, time);
      if processNow {
        CallBack(x, epoch + lastTime);
        if timers[x].autoReload {
          PostStart(x, next, stamp + timers[x].period);
        }
      }
      StartStepUnfolds(was, x, time, stamp, lastTime, Snapshot());
    }

    /** The STOP branch, and the DELETE branch for a statically allocated timer. */
    method StopTimer(command: Command, ghost stamp: nat)
      requires (command.Stop? || command.Delete?) && Good({command.timer})
      requires InHand(Snapshot(), command, stamp, clock)
      modifies this`timers
      ensures Valid() && !Filed(Snapshot(), command.timer)
      ensures Snapshot() == Obeyed(old(Snapshot()), command, stamp, clock)
      ensures Snapshot() == Retime(old(Snapshot()), command.timer, old(timers[command.timer]).(active := false))
      ensures Kept(old(Snapshot()), Snapshot()) && OnlyConcerns(old(Snapshot()), Snapshot(), command.timer)
    {
      hide Ok, Accounted, Kept, OnlyConcerns;
      var x := command.timer;
      Deactivated(Snapshot(), x, clock, queueLength);
      SetTimer(x, timers[x].(active := false));
    }

    /** The CHANGE_PERIOD branch: the timer is filed one new period from now, and an
        auto-reload timer without another command pending begins a life now. */
    method ChangeTimerPeriod(command: Command, ghost stamp: nat)
      requires command.ChangePeriod? && Good({command.timer}) && clock == epoch + lastTime
      requires InHand(Snapshot(), command, stamp, clock)
      modifies this`timers, this`current, this`overflow, this`lives
      ensures Valid() && command.timer in timers && timers[command.timer].active
      ensures Snapshot() == Obeyed(old(Snapshot()), command, stamp, clock)
      ensures Kept(old(Snapshot()), Snapshot()) && OnlyConcerns(old(Snapshot()), Snapshot(), command.timer)
      ensures timers[command.timer].period == command.period
      ensures Filed(Snapshot(), command.timer) && Expiry(Snapshot(), command.timer) == clock + command.period
      ensures old(timers[command.timer]).autoReload && NoCommand(queue, command.timer) ==>
                command.timer in lives && lives[command.timer] == Life(clock, multiset(callbacks)[command.timer], [])
    {
      hide Ok, Accounted, Kept, OnlyConcerns, With, Decide, NoCommand;
      var x, p := command.timer, command.period;
      ghost var was := Snapshot();
      ObeyedChange(was, x, p, clock, queueLength);
      ChangeOk(was, x, p, lastTime);
      ChangeKeeps(was, x, p, lastTime);
      SetTimer(x, timers[x].(active := true, period := p));
      if timers[x].autoReload && NoCommand(queue, x) {
        lives := lives[x := Life(clock, multiset(callbacks)[x], [])];
      }
      var processNow := InsertTimerInActiveList(x, WrapAdd(lastTime, p, modulus), lastTime, lastTime);
    }

    /** The branches of prvProcessReceivedCommands. */
    method Obey(command: Command, ghost stamp: nat)
      requires Good({command.timer}) && clock == epoch + lastTime
      requires InHand(Snapshot(), command, stamp, clock) && stamp <= clock
      requires command.Start? ==> Timely(clock - stamp, timers[command.timer].period, modulus)
      requires (command.Start? && timers[command.timer].autoReload
                && stamp + timers[command.timer].period <= clock) ==> |queue| < queueLength
      modifies this`timers, this`current, this`overflow, this`queue, this`callbacks, this`stamps, this`lives
      ensures Valid() && Snapshot() == Obeyed(old(Snapshot()), command, stamp, clock)
      ensures Kept(old(Snapshot()), Snapshot()) && OnlyConcerns(old(Snapshot()), Snapshot(), command.timer)
      ensures callbacks == old(callbacks)
                + if command.Start? && stamp + old(timers[command.timer]).period <= clock then [command.timer] else []
      ensures Outcome(old(lives), old(queue), old(timers)[command.timer], Snapshot(), command, stamp, clock)
    {
      hide Ok, Accounted, Kept, OnlyConcerns, Started, Restarted, Obeyed, Filed, Expiry, NoCommand, Timely;
      match command
      case Start(x, time) => StartTimer(command, stamp);
      case Stop(x) => StopTimer(command, stamp);
      case ChangePeriod(x, period) => ChangeTimerPeriod(command, stamp);
      case Delete(x) => StopTimer(command, stamp);
    }

    /** One iteration of prvProcessReceivedCommands, at the absolute time now, for a
        command of an age that is decided rightly if it is a START.  There must be room
        for what is posted, as there always is if the lists are not switched. */
    method ProcessReceivedCommand(tickCount: nat, ghost now: nat)
      requires Valid() && queue != [] && TimerRuns.FirstIsTimely(Snapshot(), now)
      requires tickCount == now % modulus && clock <= now < epoch + lastTime + modulus
      requires |queue| - 1 + TimerRuns.SwitchPosts(Snapshot(), now)
               + (if TimerRuns.StartPosts(Snapshot(), now) then 1 else 0) <= queueLength
      modifies this
      ensures Valid() && clock == now && old(queue[0]).timer in old(timers) && old(stamps) != []
      ensures TimerRuns.Good(old(Abstract())) && TimerRuns.Enabled(old(Abstract()), TimerRuns.Receive(now))
      ensures Abstract() == TimerRuns.Apply(old(Abstract()), TimerRuns.Receive(now))
      ensures Kept(old(Snapshot()), Snapshot())
      ensures OnlyConcerns(Taken(old(Snapshot()), now), Snapshot(), old(queue[0]).timer)
      ensures now < old(epoch) + modulus ==> OnlyConcerns(old(Snapshot()), Snapshot(), old(queue[0]).timer)
      ensures callbacks == Taken(old(Snapshot()), now).callbacks
                + if old(queue[0]).Start? && old(stamps[0]) + old(timers)[old(queue[0]).timer].period <= now then
                    [old(queue[0]).timer] else []
      ensures Outcome(old(lives), old(queue)[1..], old(timers)[old(queue[0]).timer],
                      Snapshot(), old(queue[0]), old(stamps[0]), now)
    {
      hide Ok, Accounted, Kept, OnlyConcerns, Outcome, InHand, Obeyed, Sampled, Untouched, CalledOnce, NoCommand;
      ghost var was := Snapshot();
      TakenOk(was, now);
      TakenConcerns(was, now, clock, queueLength);
      var command, stamp := TakeCommand(tickCount, now);
      ghost var taken := Snapshot();
      HandFacts(taken, command, stamp, now);
      Obey(command, stamp);
      KeptTwice(was, taken, Snapshot());
      OutcomeOfQueue(was.lives, taken.lives, was.queue[1..], taken.queue, was.timers[command.timer], Snapshot(),
                     command, stamp, now);
      if now < was.epoch + modulus {
        OnlyConcernsTwice(was, taken, Snapshot(), command.timer);
      }
    }

    /** prvGetNextExpireTime */
    method GetNextExpireTime() returns (nextExpireTime: nat, listWasEmpty: bool)
      requires Valid()
      ensures listWasEmpty <==> current == []
      ensures nextExpireTime == if current == [] then 0 else ValueOf(timers, current[0])
      ensures forall x :: x in current ==> nextExpireTime <= ValueOf(timers, x)
    {
      listWasEmpty := current == [];
      FirstIsEarliest(Snapshot());
      nextExpireTime := if listWasEmpty then 0 else timers[current[0]].value;
    }

    /** prvProcessTimerOrBlockTask: the daemon never waits beyond an instant at which
        a timer must be processed, nor at all while one has expired; its wait ends at the
        first expiry of the current list or, if that list is empty, when the tick count
        is 0.  When it waits, no instant of a live timer without a command pending has
        been lost. */
    method ProcessTimerOrBlockTask(nextExpireTime: nat, listWasEmpty: bool, tickCount: nat, ghost now: nat)
      returns (wait: Wait)
      requires Valid()
      requires tickCount == now % modulus && clock <= now < epoch + lastTime + modulus
      requires now >= epoch + modulus ==> |queue| + Reloads(current, timers) <= queueLength
      requires (now < epoch + modulus && current != []
                && TimerRuns.Overrun(Snapshot(), current[0], nextExpireTime, now)) ==> |queue| < queueLength
      requires listWasEmpty <==> current == []
      requires nextExpireTime == if current == [] then 0 else ValueOf(timers, current[0])
      modifies this
      ensures Valid() && clock == now
      ensures TimerRuns.Good(old(Abstract())) && TimerRuns.Enabled(old(Abstract()), TimerRuns.Process(now))
      ensures Abstract() == TimerRuns.Apply(old(Abstract()), TimerRuns.Process(now))
      ensures Kept(old(Snapshot()), Snapshot())
      ensures now >= old(epoch) + modulus ==>
                Untouched(old(Snapshot()), Snapshot()) && CalledOnce(old(Snapshot()), [], callbacks)
      ensures old(current != [] && now < epoch + modulus && epoch + ValueOf(timers, current[0]) <= now) ==>
                && OnlyConcerns(old(Snapshot()), Snapshot(), old(current[0]))
                && callbacks == old(callbacks + [current[0]]) && old(current[0]) in old(timers)
                && if old(timers[current[0]].autoReload) then
                     Renewed(Snapshot(), old(current[0]), epoch + nextExpireTime, now)
                   else
                     !Filed(Snapshot(), old(current[0]))
      ensures wait != NoWait ==> Snapshot() == old(Snapshot())
      ensures wait != NoWait ==> forall x :: Filed(Snapshot(), x) ==> Expiry(Snapshot(), x) > now
      ensures wait != NoWait ==>
                forall x :: x in lives && NoCommand(queue, x) ==> TimerRuns.UpToDate(Snapshot(), x, now)
      ensures wait.WaitFor? ==> forall x :: Filed(Snapshot(), x) ==> now + wait.ticks <= Expiry(Snapshot(), x)
      ensures wait.WaitFor? && current != [] ==>
                now + wait.ticks == Expiry(Snapshot(), current[0])
                && forall x :: Filed(Snapshot(), x) ==> Expiry(Snapshot(), current[0]) <= Expiry(Snapshot(), x)
      ensures wait.WaitFor? && current == [] ==>
                overflow != [] && now + wait.ticks == if now == epoch then epoch else epoch + modulus
      ensures wait.WaitIndefinitely? <==> wait != NoWait && current == [] && overflow == []
    {
      hide Ok, Accounted, Kept, OnlyConcerns, Renewed, Untouched, CalledOnce, Switched, ExpireStep, TimerRuns.UpToDate;
      FirstIsEarliest(Snapshot());
      var timeNow, switched := SampleTimeNow(tickCount, now, {});
      wait := NoWait;
      if !switched {
        if !listWasEmpty && nextExpireTime <= timeNow {
          ProcessExpiredTimer(nextExpireTime, timeNow);
        } else {
          WaitIsSafe(Snapshot(), nextExpireTime, timeNow);
          TimerRuns.AllUpToDate(Abstract());
          var indefinitely := listWasEmpty && overflow == [];
          wait := if indefinitely then WaitIndefinitely else WaitFor(WrapSub(nextExpireTime, timeNow, modulus));
        }
      }
    }

    /** xTimerCreateStatic */
    method CreateTimer(x: TimerId, period: nat, autoReload: bool)
      requires Valid() && x !in timers && 0 < period < modulus
      modifies this`timers
      ensures Valid() && timers == old(timers)[x := Timer(period, autoReload, false, 0)]
      ensures Abstract() == old(Abstract()).(service := Retime(old(Snapshot()), x, Timer(period, autoReload, false, 0)))
      ensures !Filed(Snapshot(), x)
    {
      hide Ok, Accounted, Kept, OnlyConcerns;
      TimerRuns.CreatedOk(Snapshot(), x, Timer(period, autoReload, false, 0), clock, queueLength);
      timers := timers[x := Timer(period, autoReload, false, 0)];
    }

    /** xTimerGenericCommand called by a task at the absolute time now.  A START
        carries the tick count of its stamp.  It begins a life for an auto-reload timer
        that is at rest; any other command ends the life of its timer. */
    method Send(command: Command, ghost stamp: nat, ghost now: nat) returns (sent: bool)
      requires Valid() && GoodCommand(Snapshot(), command) && clock <= now && stamp <= now
      requires command.Start? ==> GoodStart(command.time, stamp, modulus)
      modifies this`queue, this`stamps, this`lives, this`clock
      ensures Valid() && clock == now
      ensures TimerRuns.Good(old(Abstract()))
      ensures TimerRuns.Enabled(old(Abstract()), TimerRuns.Issue(command, stamp, now))
      ensures Abstract() == TimerRuns.Apply(old(Abstract()), TimerRuns.Issue(command, stamp, now))
      ensures sent <==> |old(queue)| < queueLength
      ensures queue == old(queue) + (if sent then [command] else [])
      ensures stamps == old(stamps) + if sent then [stamp] else []
      ensures !sent ==> lives == old(lives)
      ensures forall y :: y != command.timer ==>
                (y in lives <==> y in old(lives)) && (y in lives ==> lives[y] == old(lives)[y])
      ensures command.timer in lives ==>
                !sent || lives[command.timer] == Life(stamp, multiset(callbacks)[command.timer], [])
      ensures sent ==>
                (command.timer in lives <==>
                   command.Start? && timers[command.timer].autoReload
                   && !Filed(Snapshot(), command.timer) && NoCommand(old(queue), command.timer))
    {
      hide Ok, Accounted, GoodStart, NoCommand;
      AccountedLater(Snapshot(), clock, now, queueLength);
      clock := now;
      sent := |queue| < queueLength;
      if sent {
        var x := command.timer;
        IssuedOk(Snapshot(), command, stamp);
        IssuedAccounted(Snapshot(), command, stamp, now, queueLength);
        if command.Start? && timers[x].autoReload && !Filed(Snapshot(), x) && NoCommand(queue, x) {
          lives := lives[x := Life(stamp, multiset(callbacks)[x], [])];
        } else {
          lives := map y | y in lives && y != x :: lives[y];
        }
        queue := queue + [command];
        stamps := stamps + [stamp];
      }
    }
  }

  // ----- whole runs -----

  /** A service that performs a series of steps is the abstract machine of its run, and
      every live auto-reload timer that no task issues a command for keeps its
      instants. */
  method Perform(service: TimerService, steps: seq<TimerRuns.Step>)
    requires service.Valid() && TimerRuns.Good(service.Abstract()) && TimerRuns.IsRun(service.Abstract(), steps)
    modifies service
    ensures service.Valid() && service.Abstract() == TimerRuns.Final(old(service.Abstract()), steps)
    ensures forall x :: x in old(service.lives) && TimerRuns.LeavesAlone(steps, x) ==>
              TimerRuns.KeepsItsInstants(old(service.Snapshot()), service.Snapshot(), x)
    decreases |steps|
  {
    hide Ok, Accounted, TimerRuns.LeavesAlone, TimerRuns.KeepsItsInstants, TimerRuns.Apply;
    ghost var k := service.Abstract();
    forall x | x in k.service.lives && TimerRuns.LeavesAlone(steps, x)
      ensures TimerRuns.KeepsItsInstants(k.service, TimerRuns.Final(k, steps).service, x)
    {
      TimerRuns.FiresOncePerInstantInEveryRun(k, steps, x);
    }
    if steps != [] {
      PerformStep(service, steps[0]);
      Perform(service, steps[1..]);
    }
  }

  method PerformStep(service: TimerService, step: TimerRuns.Step)
    requires service.Valid() && TimerRuns.Good(service.Abstract()) && TimerRuns.Enabled(service.Abstract(), step)
    modifies service
    ensures service.Valid() && service.Abstract() == TimerRuns.Apply(old(service.Abstract()), step)
  {
    hide Ok, Accounted;
    EpochIsWhole(service.Snapshot(), {});
    match step
    case Receive(now) => service.ProcessReceivedCommand(now % service.modulus, now);
    case Process(now) =>
      var next, empty := service.GetNextExpireTime();
      var wait := service.ProcessTimerOrBlockTask(next, empty, now % service.modulus, now);
    case Issue(command, stamp, now) => var sent := service.Send(command, stamp, now);
    case Create(x, period, autoReload) => service.CreateTimer(x, period, autoReload);
  }

  // ----- samples less than a wrap apart are not enough -----

  /** The state of the service below while its commands wait in the queue. */
  ghost predicate Idle(s: Service) {
    && s.modulus == 16 && s.current == [] && s.overflow == []
    && s.timers.Keys == {0, 1} && s.timers[0] == Timer(7, true, false, 0)
    && 0 in s.lives && s.lives[0] == Life(5, 0, []) && 1 !in s.lives && |s.queue| == |s.stamps|
  }

  /** A service with 16 tick counts and two timers at rest. */
  method AtRest() returns (service: TimerService)
    ensures fresh(service) && service.Valid() && service.modulus == 16 && service.queueLength == 3
    ensures service.clock == service.epoch == service.lastTime == 0
    ensures service.timers == map[0 := Timer(7, true, false, 0), 1 := Timer(1, false, false, 0)]
    ensures service.current == [] && service.overflow == [] && service.callbacks == []
    ensures service.queue == [] && service.stamps == [] && service.lives == map[]
  {
    hide Ok, Accounted;
    service := new TimerService(16, 3);
    service.CreateTimer(0, 7, true);
    service.CreateTimer(1, 1, false);
  }

  /** The timer of period 7 is started at 5.  Two commands for the other one are ahead of
      its START. */
  method LateStart() returns (service: TimerService)
    ensures fresh(service) && service.modulus == 16 && service.clock == 5
    ensures service.Valid() && service.epoch + service.lastTime == 0 && service.epoch == 0
    ensures service.timers == map[0 := Timer(7, true, false, 0), 1 := Timer(1, false, false, 0)]
    ensures service.current == [] && service.overflow == [] && service.callbacks == [] && service.queueLength == 3
    ensures service.queue == [Stop(1), Stop(1), Start(0, 5)] && service.stamps == [5, 5, 5]
    ensures service.lives == map[0 := Life(5, 0, [])] && Idle(service.Snapshot())
  {
    hide Ok, Accounted, TimerRuns.Good, TimerRuns.Enabled, TimerRuns.Apply;
    service := AtRest();
    var sent := service.Send(Stop(1), 5, 5);
    sent := service.Send(Stop(1), 5, 5);
    assert service.lives == map[];
    sent := service.Send(Start(0, 5), 5, 5);
  }

  lemma NothingDrained(was: Service, s: Service, callbacks: seq<TimerId>)
    requires Untouched(was, s) && CalledOnce(was, [], callbacks) && was.current == [] && was.callbacks == []
    ensures s.timers == was.timers && callbacks == []
    ensures forall x :: x in was.timers ==> (x in s.lives <==> x in was.lives)
    ensures forall x :: x in was.timers && x in was.lives ==> s.lives[x] == was.lives[x]
  {
    assert callbacks == [] || multiset(callbacks)[callbacks[0]] > 0;
  }

  /** The daemon takes a STOP for the other timer. */
  method SampleOnce(service: TimerService, tickCount: nat, ghost now: nat)
    requires service.Valid() && service.queueLength == 3 && Idle(service.Snapshot()) && service.callbacks == []
    requires service.queue != [] && service.queue[0] == Stop(1)
    requires tickCount == now % 16 && service.clock <= now < service.epoch + service.lastTime + 16
    modifies service
    ensures service.Valid() && Idle(service.Snapshot()) && service.callbacks == []
    ensures service.queue == old(service.queue)[1..] && service.stamps == old(service.stamps)[1..]
    ensures service.clock == now == service.epoch + service.lastTime
    ensures service.epoch == old(service.epoch) + if now >= old(service.epoch) + 16 then 16 else 0
  {
    hide Ok, Accounted, Untouched, CalledOnce;
    ghost var taken := Unfile(Pop(service.Snapshot()), 1);
    QueueHasRoom(service.Snapshot(), service.clock, 3);
    var stop, stamp := service.TakeCommand(tickCount, now);
    if service.epoch == old(service.epoch) + 16 {
      NothingDrained(taken, service.Snapshot(), service.callbacks);
    }
    QueueIsStamped(service.Snapshot(), {1});
    service.StopTimer(stop, stamp);
  }

  lemma QueueIsStamped(s: Service, inHand: set<TimerId>)
    requires Ok(s, inHand)
    ensures |s.queue| == |s.stamps|
  {
  }

  /** The daemon takes the START at 26. */
  method TakeLateStart(service: TimerService)
    requires service.Valid() && service.queueLength == 3 && Idle(service.Snapshot()) && service.callbacks == []
    requires service.queue == [Start(0, 5)] && service.stamps == [5]
    requires service.clock == 20 && service.epoch == 16 && service.lastTime == 4
    modifies service
    ensures 0 in service.lives && service.lives[0] == Life(5, 0, []) && service.clock == 26
    ensures 0 in service.timers && service.timers[0].period == 7 && Due(service.Snapshot(), 0) == 12
    ensures Filed(service.Snapshot(), 0) && Expiry(service.Snapshot(), 0) == 28 && service.callbacks == []
  {
    hide Ok, Accounted, Untouched, CalledOnce;
    QueueHasRoom(service.Snapshot(), service.clock, 3);
    var command, stamp := service.TakeCommand(10, 26);
    service.ApplyStart(0, 5, 5);
  }

  /** Samples at 14, 20 and 26 are less than a wrap apart, but the START is processed
      21 ticks after its instant: the timer is filed for 28, although it was due at 12
      and has not been called back. */
  method LateStartIsMissed() returns (service: TimerService)
    ensures 0 in service.lives && service.lives[0] == Life(5, 0, []) && service.clock == 26
    ensures 0 in service.timers && service.timers[0].period == 7 && Due(service.Snapshot(), 0) == 12
    ensures Filed(service.Snapshot(), 0) && Expiry(service.Snapshot(), 0) == 28 && service.callbacks == []
  {
    hide Ok, Accounted, Idle, Due, Expiry, Filed;
    service := LateStart();
    SampleOnce(service, 14, 14);
    SampleOnce(service, 4, 20);
    TakeLateStart(service);
  }

  /** Less than a full wrap after the last sample, a smaller tick count means that
      the count has wrapped once, and any other that it has not. */
  lemma WrapIsDetected(epoch: nat, last: nat, now: nat, m: nat)
    requires m > 1 && epoch % m == 0 && last < m && epoch + last <= now < epoch + last + m
    ensures now % m < m && (now % m < last <==> now >= epoch + m)
    ensures now == epoch + now % m + if now % m < last then m else 0
  {
    var q, e := now / m, epoch / m;
    Quotient(now, m);
    Quotient(epoch, m);
    Distributes(q, e, m);
    Multiples(q - e, m);
  }

  lemma EpochIsWhole(s: Service, inHand: set<TimerId>)
    requires Ok(s, inHand)
    ensures s.modulus > 1 && s.epoch % s.modulus == 0
  {
  }
}

/** tasks.c: vTaskInternalSetTimeOutState and xTaskCheckForTimeOut, which measure a
    wait with a tick count that wraps and a count of the wraps. */
module Timeouts {
  import opened Arithmetic
  import opened Periods

  /** The clock as the code sees it at absolute time now: the tick count counts
      modulo m, and the overflow counter counts the wraps modulo w. */
  datatype Clock = Clock(m: nat, w: nat, now: nat) {
    ghost predicate Valid() {
      m > 1 && w > 1
    }

    function TickCount(): (t: nat)
      requires m > 0
      ensures t < m
    {
      now % m
    }

    function NumOfOverflows(): nat
      requires m > 0 && w > 0
    {
      now / m % w
    }
  }

  class TimeOut {
    var overflowCount: nat
    var timeOnEntering: nat

    /** The time-out state was recorded at the absolute time entry. */
    ghost predicate EnteredAt(clock: Clock)
      reads this
    {
      clock.Valid() && overflowCount == clock.NumOfOverflows() && timeOnEntering == clock.TickCount()
    }

    /** vTaskInternalSetTimeOutState */
    method Set(clock: Clock)
      requires clock.Valid()
      modifies this
      ensures EnteredAt(clock)
    {
      overflowCount := clock.NumOfOverflows();
      timeOnEntering := clock.TickCount();
    }

    /** xTaskCheckForTimeOut */
    method Check(clock: Clock, ticksToWait: nat, ghost entry: Clock) returns (expired: bool, remaining: nat)
      requires EnteredAt(entry) && clock == entry.(now := clock.now) && entry.now <= clock.now
      requires ticksToWait < clock.m
      modifies this
      ensures expired == Expires(entry, clock.now, ticksToWait)
      ensures !expired && ticksToWait < clock.m - 1 ==> EnteredAt(clock) && remaining > 0
      ensures !expired && ticksToWait < clock.m - 1 && clock.now - entry.now < clock.m ==>
                clock.now + remaining == entry.now + ticksToWait
      ensures ticksToWait == clock.m - 1 ==> EnteredAt(entry) && remaining == ticksToWait
      ensures !expired && ticksToWait < clock.m - 1 ==>
                remaining == ticksToWait - WrapSub(clock.TickCount(), entry.TickCount(), clock.m)
      ensures expired ==> EnteredAt(entry)
      ensures expired ==>
                remaining == if (clock.NumOfOverflows() != entry.NumOfOverflows()
                                 && clock.TickCount() >= entry.TickCount()) then ticksToWait else 0
    {
      var constTickCount := clock.TickCount();
      var elapsedTime := WrapSub(constTickCount, timeOnEntering, clock.m);
      remaining := ticksToWait;
      if ticksToWait == clock.m - 1 {
        expired := false;
      } else if clock.NumOfOverflows() != overflowCount && constTickCount >= timeOnEntering {
        expired := true;
      } else if elapsedTime < ticksToWait {
        remaining := ticksToWait - elapsedTime;
        Set(clock);
        expired := false;
      } else {
        remaining := 0;
        expired := true;
      }
      WrapSubIsModular(entry.now, clock.now, clock.m);
      if clock.now - entry.now < clock.m {
        OneWrap(entry.now, clock.now, clock.m);
      }
    }
  }

  /** When xTaskCheckForTimeOut says that a wait entered at entry.now has expired. */
  ghost predicate Expires(entry: Clock, now: nat, ticksToWait: nat)
    requires entry.Valid()
  {
    var clock := entry.(now := now);
    && ticksToWait != entry.m - 1
    && ((clock.NumOfOverflows() != entry.NumOfOverflows() && clock.TickCount() >= entry.TickCount())
        || WrapSub(clock.TickCount(), entry.TickCount(), entry.m) >= ticksToWait)
  }

  /** Within m ticks the clock wraps at most once. */
  lemma OneWrap(early: nat, late: nat, m: nat)
    requires m > 0 && early <= late < early + m
    ensures late / m == early / m || late / m == early / m + 1
    ensures late / m == early / m ==> late % m - early % m == late - early
    ensures late / m == early / m + 1 ==> m + late % m - early % m == late - early && late % m < early % m
  {
    Quotient(early, m);
    Quotient(late, m);
    var d := late / m - early / m;
    Multiples(d, m);
    assert late / m * m - early / m * m == d * m;
  }

  lemma WrapSubIsModular(early: nat, late: nat, m: nat)
    requires m > 0 && early <= late
    ensures WrapSub(late % m, early % m, m) == (late - early) % m
  {
    Quotient(early, m);
    Quotient(late, m);
    Quotient(late - early, m);
    var r, x := WrapSub(late % m, early % m, m), late - early;
    var q := late / m - early / m - if early % m <= late % m then 0 else 1;
    var k := x / m - q;
    Multiples(k, m);
    assert late / m * m - early / m * m == (late / m - early / m) * m;
    assert x == q * m + r;
    assert k * m == x / m * m - q * m;
  }

  /** The answer is right whatever the wait, except in one case: more than a full
      wrap of the tick count has passed unnoticed, and what is left of it is
      shorter than the wait. */
  lemma ExpiryIsExact(entry: Clock, now: nat, ticksToWait: nat)
    requires entry.Valid() && entry.now <= now && ticksToWait < entry.m - 1
    ensures (Expires(entry, now, ticksToWait) <==> now >= entry.now + ticksToWait)
            <==>
            (now - entry.now < entry.m
             || (now - entry.now) % entry.m >= ticksToWait
             || (now % entry.m >= entry.now % entry.m && now / entry.m % entry.w != entry.now / entry.m % entry.w))
  {
    WrapSubIsModular(entry.now, now, entry.m);
    if now - entry.now < entry.m {
      OneWrap(entry.now, now, entry.m);
      NextDiffers(entry.now / entry.m, entry.w);
      SmallRemainder(now - entry.now, entry.m);
    }
  }

  lemma NextDiffers(x: nat, w: nat)
    requires w > 1
    ensures (x + 1) % w != x % w
  {
    Quotient(x, w);
    Quotient(x + 1, w);
    var k := (x + 1) / w - x / w;
    Multiples(k, w);
    assert k * w == (x + 1) / w * w - x / w * w;
  }

  /** The exceptional case arises: a wait of 7 ticks is not seen to have expired
      22 ticks later, when the tick count has 16 values. */
  lemma MissedDeadline()
    ensures var entry := Clock(16, 4, 10);
            32 >= entry.now + 7 && !Expires(entry, 32, 7)
  {
  }

  // ----- a whole wait -----

  ghost predicate Successive(early: nat, times: seq<nat>, m: nat) {
    && (times != [] ==> early <= times[0] < early + m)
    && (forall i :: 0 < i < |times| ==> times[i-1] <= times[i] < times[i-1] + m)
  }

  /** The first of a series of checks that says the wait has expired, when each
      check starts from the state its predecessor left. */
  ghost function FirstExpiry(entry: Clock, ticksToWait: nat, times: seq<nat>): nat
    requires entry.Valid() && ticksToWait < entry.m
    decreases |times|
  {
    if times == [] || Expires(entry, times[0], ticksToWait) then 0
    else if ticksToWait == entry.m - 1 then 1 + FirstExpiry(entry, ticksToWait, times[1..])
    else
      var elapsed := WrapSub(times[0] % entry.m, entry.now % entry.m, entry.m);
      1 + FirstExpiry(entry.(now := times[0]), ticksToWait - elapsed, times[1..])
  }

  function FirstAtLeast(times: seq<nat>, deadline: nat): nat {
    if times == [] || times[0] >= deadline then 0 else 1 + FirstAtLeast(times[1..], deadline)
  }

  /** Over any number of checks, less than m ticks apart, the wait expires exactly
      at the first check that is not before the original deadline. */
  lemma {:induction false} DeadlineIsConserved(entry: Clock, ticksToWait: nat, times: seq<nat>)
    requires entry.Valid() && ticksToWait < entry.m - 1 && Successive(entry.now, times, entry.m)
    ensures FirstExpiry(entry, ticksToWait, times) == FirstAtLeast(times, entry.now + ticksToWait)
    decreases |times|
  {
    if times != [] {
      var now := times[0];
      ExpiryIsExact(entry, now, ticksToWait);
      if now < entry.now + ticksToWait {
        WrapSubIsModular(entry.now, now, entry.m);
        SmallRemainder(now - entry.now, entry.m);
        assert |times| > 1 ==> times[1..][0] == times[1];
        DeadlineIsConserved(entry.(now := now), ticksToWait - (now - entry.now), times[1..]);
      }
    }
  }

  /** A wait of portMAX_DELAY never expires. */
  lemma {:induction false} NeverExpires(entry: Clock, times: seq<nat>)
    requires entry.Valid()
    ensures FirstExpiry(entry, entry.m - 1, times) == |times|
    decreases |times|
  {
    if times != [] {
      NeverExpires(entry, times[1..]);
    }
  }
}

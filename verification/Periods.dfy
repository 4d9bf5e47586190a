/** tasks.c: the decision of vTaskDelayUntil, which compares tick counts that wrap. */
module Periods {

  function WrapAdd(a: nat, b: nat, m: nat): nat
    requires a < m && b < m
  {
    if a + b < m then a + b else a + b - m
  }

  function WrapSub(a: nat, b: nat, m: nat): nat
    requires a < m && b < m
  {
    if b <= a then a - b else a + m - b
  }

  /** xShouldDelay */
  predicate ShouldDelay(previousWake: nat, increment: nat, now: nat, m: nat)
    requires previousWake < m && increment < m && now < m
  {
    var timeToWake := WrapAdd(previousWake, increment, m);
    if now < previousWake then timeToWake < previousWake && timeToWake > now
    else timeToWake < previousWake || timeToWake > now
  }

  /** The last absolute time, not after the present, at which the tick count was
      the given value; the tick count was last 0 at the time epoch. */
  function LastInstant(tick: nat, epoch: int, now: nat, m: nat): int {
    if tick <= now then epoch + tick else epoch - m + tick
  }

  /** The task sleeps if and only if the end of its period lies ahead, and then
      for exactly the time that is left. */
  lemma DelayUntilIsExact(previousWake: nat, increment: nat, epoch: int, now: nat, m: nat)
    requires previousWake < m && 0 < increment < m && now < m
    ensures var end := LastInstant(previousWake, epoch, now, m) + increment;
            && (ShouldDelay(previousWake, increment, now, m) <==> end > epoch + now)
            && (end > epoch + now ==> WrapSub(WrapAdd(previousWake, increment, m), now, m) == end - (epoch + now))
  {
  }

  /** The wake time handed back stands for the end of the period, for any later
      call made before another wrap's worth of ticks has passed, so that periods
      follow each other without drift. */
  lemma PeriodsDoNotDrift(previousWake: nat, increment: nat, epoch: int, now: nat, epoch': int, now': nat, m: nat)
    requires previousWake < m && 0 < increment < m && now < m && now' < m
    requires epoch' == epoch || epoch' == epoch + m || epoch' == epoch + 2 * m
    requires var end := LastInstant(previousWake, epoch, now, m) + increment;
             end <= epoch' + now' < end + m
    ensures LastInstant(WrapAdd(previousWake, increment, m), epoch', now', m) ==
            LastInstant(previousWake, epoch, now, m) + increment
  {
  }
}

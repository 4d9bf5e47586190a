/** The state of the scheduler as a value: its invariant, what its lists mean for
    each task, and how the invariant survives the moves the scheduler makes. */
module KernelState {
  import opened RoundRobin
  import opened KernelLists
  import opened Arithmetic
  import opened Inheritance
  import opened Wrappers


  /** A snapshot of the scheduler, but for the order within its lists.  The epoch
      is the absolute time at which the tick count was last 0; the scheduler is
      settled when it is not suspended and nothing is left pending. */
  datatype Snap = Snap(
    modulus: nat, maxPriorities: nat,
    tcb: map<Task, TCB>, container: Containers, values: map<Item, nat>, current: Option<Task>,
    firstIsDelayed: bool, epoch: nat, tick: nat, next: nat, top: nat, settled: bool, running: bool)

  /** The delayed list that pxDelayedTaskList points at, when first says it is
      xDelayedTaskList1; and, when it says the opposite, the overflow list. */
  function CurrentList(first: bool): ListId {
    if first then Delayed1 else Delayed2
  }

  /** What the kernel's lists mean for a task. */
  datatype Status = Runnable | DelayedUntil(wake: nat) | Blocked | Deleted

  // ----- the invariant -----

  /** The state item of a task may be in list l. */
  predicate Fits(l: ListId, t: TCB) {
    match l
    case Ready(p) => p == t.priority
    case Delayed1 => true
    case Delayed2 => true
    case Suspended => true
    case Termination => true
    case PendingReady => false
    case EventList(_) => false
  }

  /** Every state item is in exactly one list, one that fits its task; only
      existing tasks have items in lists; and an event item is in an event list
      or the pending-ready list, and its task has not been deleted. */
  ghost predicate Placed(tcb: map<Task, TCB>, container: Containers) {
    && (forall t :: t in tcb ==> StateItem(t) in container && Fits(container[StateItem(t)], tcb[t]))
    && (forall t :: StateItem(t) in container ==> t in tcb)
    && (forall t :: EventItem(t) in container ==>
          && t in tcb
          && (container[EventItem(t)].PendingReady? || container[EventItem(t)].EventList?)
          && StateItem(t) in container && container[StateItem(t)] != Termination)
  }

  /** Tasks in the current delayed list wake at low or later in this epoch, and
      not before the next unblock time; those in the other list, in the next. */
  ghost predicate Timed(s: Snap, low: nat) {
    && (forall t :: StateItem(t) in s.container && s.container[StateItem(t)] == CurrentList(s.firstIsDelayed) ==>
          low <= ValueOf(s.values, StateItem(t)) < s.modulus && s.next <= ValueOf(s.values, StateItem(t)))
    && (forall t :: StateItem(t) in s.container && s.container[StateItem(t)] == CurrentList(!s.firstIsDelayed) ==>
          ValueOf(s.values, StateItem(t)) < s.modulus && ValueOf(s.values, StateItem(t)) <= s.tick)
  }

  /** No ready list above top holds a task. */
  ghost predicate Topped(container: Containers, top: nat) {
    forall t :: StateItem(t) in container && container[StateItem(t)].Ready? ==> container[StateItem(t)].priority <= top
  }

  ghost predicate NonePending(container: Containers) {
    forall t :: EventItem(t) in container ==> container[EventItem(t)] != PendingReady
  }

  /** The invariant, with every task that is due before low already released. */
  ghost predicate OkFrom(s: Snap, low: nat) {
    && s.modulus > 1 && s.tick < s.modulus && s.next < s.modulus
    && Placed(s.tcb, s.container)
    && Timed(s, low)
    && Topped(s.container, s.top)
    && (forall t :: t in s.tcb ==> s.tcb[t].priority < s.maxPriorities && s.tcb[t].basePriority < s.maxPriorities)
    && (s.current.Some? ==> s.current.value in s.tcb)
    && (s.settled ==> NonePending(s.container))
    && (s.running ==> s.current.Some?)
  }

  ghost predicate Ok(s: Snap) {
    OkFrom(s, s.tick + 1)
  }

  // ----- the meaning -----

  function StatusOf(s: Snap, t: Task): Status {
    if StateItem(t) !in s.container then Blocked
    else if s.container[StateItem(t)].Ready? then Runnable
    else if s.container[StateItem(t)] == Termination then Deleted
    else if s.container[StateItem(t)] == CurrentList(s.firstIsDelayed) then
      DelayedUntil(s.epoch + ValueOf(s.values, StateItem(t)))
    else if s.container[StateItem(t)] == CurrentList(!s.firstIsDelayed) then
      DelayedUntil(s.epoch + s.modulus + ValueOf(s.values, StateItem(t)))
    else Blocked
  }

  function Statuses(s: Snap): map<Task, Status> {
    map t | t in s.tcb :: StatusOf(s, t)
  }

  /** The event list each waiting task is on. */
  function Waiting(s: Snap): map<Task, ListId> {
    map t | t in s.tcb && EventItem(t) in s.container :: s.container[EventItem(t)]
  }

  lemma RunnableIsReady(s: Snap, low: nat, t: Task)
    requires OkFrom(s, low) && t in Statuses(s)
    ensures t in s.tcb && StateItem(t) in s.container
    ensures Statuses(s)[t] == Runnable <==> s.container[StateItem(t)].Ready?
    ensures Statuses(s)[t] == Runnable ==> s.container[StateItem(t)] == Ready(s.tcb[t].priority)
    ensures Statuses(s)[t] == Deleted <==> s.container[StateItem(t)] == Termination
    ensures t in Waiting(s) <==> EventItem(t) in s.container
    ensures s.tcb[t].priority < s.maxPriorities && s.tick < s.modulus
  {
  }

  /** A blocked task that waits for nothing is one whose state item is in the suspended
      list and whose event item is in none. */
  lemma SuspendedIsBlocked(s: Snap, low: nat, t: Task)
    requires OkFrom(s, low) && t in s.tcb
    ensures t in Statuses(s) && StateItem(t) in s.container
    ensures s.container[StateItem(t)] == Suspended && EventItem(t) !in s.container <==>
              Statuses(s)[t] == Blocked && t !in Waiting(s)
  {
  }

  /** The delayed lists hold state items of existing tasks. */
  lemma DelayedIsState(s: Snap, low: nat, x: Item)
    requires OkFrom(s, low) && x in s.container && (s.container[x] == Delayed1 || s.container[x] == Delayed2)
    ensures x.StateItem? && x.task in s.tcb && ValueOf(s.values, x) < s.modulus
  {
    match x
    case StateItem(t) =>
    case EventItem(t) =>
  }

  /** Only task t changes status or waits elsewhere. */
  lemma OnlyStatusOf(s: Snap, s': Snap, t: Task)
    requires s'.tcb.Keys == s.tcb.Keys
    requires forall u :: u in s.tcb && u != t ==> StatusOf(s', u) == StatusOf(s, u)
    ensures t in s.tcb ==> Statuses(s') == Statuses(s)[t := StatusOf(s', t)]
    ensures (t in s.tcb ==> StatusOf(s', t) == StatusOf(s, t)) ==> Statuses(s') == Statuses(s)
  {
    hide StatusOf;
  }

  lemma WaitingIsListed(s: Snap, t: Task)
    requires t in Waiting(s)
    ensures EventItem(t) in s.container && s.container[EventItem(t)] == Waiting(s)[t]
  {
  }

  lemma EventIsNotDelayed(s: Snap, low: nat, t: Task)
    requires OkFrom(s, low)
    ensures EventItem(t) in s.container ==>
            s.container[EventItem(t)] != Delayed1 && s.container[EventItem(t)] != Delayed2
  {
  }

  lemma OnlyTasksAreListed(s: Snap, low: nat, t: Task)
    requires OkFrom(s, low) && StateItem(t) in s.container
    ensures t in s.tcb
  {
  }

  lemma EventIsOnEventList(s: Snap, low: nat, t: Task)
    requires OkFrom(s, low) && EventItem(t) in s.container
    ensures t in s.tcb && (s.container[EventItem(t)].EventList? || s.container[EventItem(t)].PendingReady?)
    ensures StateItem(t) in s.container && s.container[StateItem(t)] != Termination
    ensures s.settled ==> s.container[EventItem(t)] != PendingReady
    ensures t in Waiting(s) && Waiting(s)[t] == s.container[EventItem(t)]
  {
  }

  // ----- the moves -----

  function Moved(s: Snap, t: Task, l: ListId, top: nat): Snap {
    s.(container := s.container[StateItem(t) := l], top := top)
  }

  /** A state item moves to a list that is not a delayed list. */
  lemma MoveState(s: Snap, low: nat, t: Task, l: ListId, top: nat)
    requires OkFrom(s, low) && t in s.tcb && Fits(l, s.tcb[t])
    requires l != Delayed1 && l != Delayed2 && (l == Termination ==> EventItem(t) !in s.container)
    requires s.top <= top && (l.Ready? ==> l.priority <= top)
    ensures OkFrom(Moved(s, t, l, top), low)
    ensures Statuses(Moved(s, t, l, top)) == Statuses(s)[t :=
              if l.Ready? then Runnable else if l == Termination then Deleted else Blocked]
    ensures Waiting(Moved(s, t, l, top)) == Waiting(s)
  {
    OnlyStatusOf(s, Moved(s, t, l, top), t);
  }

  /** Where and when a task that starts to sleep now is filed. */
  function Asleep(s: Snap, t: Task, ticks: nat): Snap
    requires s.tick < s.modulus
  {
    var v := if s.tick + ticks < s.modulus then s.tick + ticks else s.tick + ticks - s.modulus;
    s.(container := s.container[StateItem(t) := CurrentList(s.firstIsDelayed == (s.tick <= v))],
       values := s.values[StateItem(t) := v],
       next := if s.tick <= v < s.next then v else s.next)
  }

  /** A ready task goes to sleep. */
  lemma Sleep(s: Snap, t: Task, ticks: nat)
    requires Ok(s) && t in s.tcb && 0 < ticks < s.modulus
    requires s.container[StateItem(t)].Ready?
    ensures Ok(Asleep(s, t, ticks))
    ensures Statuses(Asleep(s, t, ticks)) == Statuses(s)[t := DelayedUntil(s.epoch + s.tick + ticks)]
    ensures Waiting(Asleep(s, t, ticks)) == Waiting(s)
  {
    hide Statuses, Waiting, StatusOf, Timed;
    SleepStatuses(s, t, ticks);
    SleepTimed(s, t, ticks);
  }

  lemma SleepTimed(s: Snap, t: Task, ticks: nat)
    requires Timed(s, s.tick + 1) && s.tick < s.modulus && 0 < ticks < s.modulus
    ensures Timed(Asleep(s, t, ticks), s.tick + 1)
  {
  }

  lemma SleepStatuses(s: Snap, t: Task, ticks: nat)
    requires t in s.tcb && s.tick < s.modulus && 0 < ticks < s.modulus
    ensures Statuses(Asleep(s, t, ticks)) == Statuses(s)[t := DelayedUntil(s.epoch + s.tick + ticks)]
    ensures Waiting(Asleep(s, t, ticks)) == Waiting(s)
  {
    OnlyStatusOf(s, Asleep(s, t, ticks), t);
  }

  /** An event item leaves its list. */
  lemma Unwait(s: Snap, low: nat, t: Task)
    requires OkFrom(s, low) && t in s.tcb
    ensures var s' := s.(container := s.container - {EventItem(t)});
            OkFrom(s', low) && Statuses(s') == Statuses(s) && Waiting(s') == Waiting(s) - {t}
  {
    hide Statuses, Waiting, StatusOf;
    UnwaitStatuses(s, t);
  }

  lemma UnwaitStatuses(s: Snap, t: Task)
    ensures var s' := s.(container := s.container - {EventItem(t)});
            Statuses(s') == Statuses(s) && Waiting(s') == Waiting(s) - {t}
  {
    OnlyStatusOf(s, s.(container := s.container - {EventItem(t)}), t);
  }

  function Refiled(s: Snap, t: Task, l: ListId): Snap {
    s.(container := (s.container - {EventItem(t)})[StateItem(t) := l])
  }

  /** A task leaves every list for the suspended or the termination list. */
  lemma Refile(s: Snap, low: nat, t: Task, l: ListId)
    requires OkFrom(s, low) && t in s.tcb && (l == Suspended || l == Termination)
    ensures OkFrom(Refiled(s, t, l), low)
    ensures Statuses(Refiled(s, t, l)) == Statuses(s)[t := if l == Termination then Deleted else Blocked]
    ensures Waiting(Refiled(s, t, l)) == Waiting(s) - {t}
  {
    hide OkFrom, Statuses, Waiting;
    Unwait(s, low, t);
    MoveState(s.(container := s.container - {EventItem(t)}), low, t, l, s.top);
  }

  /** An event item enters an event list, or the pending-ready list. */
  lemma Wait(s: Snap, low: nat, t: Task, l: ListId)
    requires OkFrom(s, low) && t in s.tcb && s.container[StateItem(t)] != Termination
    requires l.EventList? || (l.PendingReady? && !s.settled)
    ensures var s' := s.(container := s.container[EventItem(t) := l]);
            OkFrom(s', low) && Statuses(s') == Statuses(s) && Waiting(s') == Waiting(s)[t := l]
  {
    hide Statuses, Waiting, StatusOf;
    WaitStatuses(s, t, l);
  }

  lemma WaitStatuses(s: Snap, t: Task, l: ListId)
    requires t in s.tcb
    ensures var s' := s.(container := s.container[EventItem(t) := l]);
            Statuses(s') == Statuses(s) && Waiting(s') == Waiting(s)[t := l]
  {
    hide Statuses, Waiting, StatusOf;
    StatusesOfState(s, s.(container := s.container[EventItem(t) := l]));
    WaitingMore(s, t, l);
  }

  /** Only the state items and their values tell the statuses. */
  lemma StatusesOfState(s: Snap, s': Snap)
    requires s' == s.(container := s'.container)
    requires forall u :: StateItem(u) in s'.container <==> StateItem(u) in s.container
    requires forall u :: StateItem(u) in s.container ==> s'.container[StateItem(u)] == s.container[StateItem(u)]
    ensures Statuses(s') == Statuses(s)
  {
  }

  lemma WaitingMore(s: Snap, t: Task, l: ListId)
    requires t in s.tcb
    ensures Waiting(s.(container := s.container[EventItem(t) := l])) == Waiting(s)[t := l]
  {
  }

  /** The value of an event item changes. */
  lemma SetEventValue(s: Snap, low: nat, t: Task, v: nat)
    requires OkFrom(s, low)
    ensures var s' := s.(values := s.values[EventItem(t) := v]);
            OkFrom(s', low) && Statuses(s') == Statuses(s) && Waiting(s') == Waiting(s)
  {
    hide Statuses, Waiting, StatusOf;
    SetEventValueStatuses(s, t, v);
  }

  lemma SetEventValueStatuses(s: Snap, t: Task, v: nat)
    ensures var s' := s.(values := s.values[EventItem(t) := v]);
            Statuses(s') == Statuses(s) && Waiting(s') == Waiting(s)
  {
    OnlyStatusOf(s, s.(values := s.values[EventItem(t) := v]), t);
  }

  function Added(s: Snap, t: Task, priority: nat, top: nat): Snap {
    s.(tcb := s.tcb[t := TCB(priority, priority, 0)],
       container := s.container[StateItem(t) := Ready(priority)], top := top)
  }

  /** A task is created. */
  lemma AddTask(s: Snap, low: nat, t: Task, priority: nat, top: nat)
    requires OkFrom(s, low) && t !in s.tcb && priority < s.maxPriorities && s.top <= top && priority <= top
    ensures StateItem(t) !in s.container && EventItem(t) !in s.container
    ensures OkFrom(Added(s, t, priority, top), low)
    ensures Statuses(Added(s, t, priority, top)) == Statuses(s)[t := Runnable]
    ensures Waiting(Added(s, t, priority, top)) == Waiting(s)
  {
    hide Statuses, StatusOf, Topped;
    AddTaskStatuses(s, t, priority, top);
    AddTaskOk(s, low, t, priority, top);
  }

  lemma AddTaskOk(s: Snap, low: nat, t: Task, priority: nat, top: nat)
    requires OkFrom(s, low) && t !in s.tcb && priority < s.maxPriorities && s.top <= top && priority <= top
    ensures OkFrom(Added(s, t, priority, top), low)
  {
    hide Placed, Timed, Topped, NonePending;
    AddTaskPlaced(s, t, priority, top);
    AddTaskTimed(s, low, t, priority, top);
  }

  lemma AddTaskTimed(s: Snap, low: nat, t: Task, priority: nat, top: nat)
    requires Timed(s, low) && Topped(s.container, s.top) && s.top <= top && priority <= top
    ensures Timed(Added(s, t, priority, top), low)
    ensures Topped(Added(s, t, priority, top).container, top)
    ensures NonePending(s.container) ==> NonePending(Added(s, t, priority, top).container)
  {
  }

  lemma AddTaskPlaced(s: Snap, t: Task, priority: nat, top: nat)
    requires Placed(s.tcb, s.container) && t !in s.tcb
    ensures StateItem(t) !in s.container && EventItem(t) !in s.container
    ensures Placed(Added(s, t, priority, top).tcb, Added(s, t, priority, top).container)
    ensures Waiting(Added(s, t, priority, top)) == Waiting(s)
  {
  }

  lemma AddTaskStatuses(s: Snap, t: Task, priority: nat, top: nat)
    ensures Statuses(Added(s, t, priority, top)) == Statuses(s)[t := Runnable]
  {
  }

  lemma OneFewer<K, V>(m: map<K, V>, k: K)
    requires k in m
    ensures |m - {k}| == |m| - 1
  {
    assert (m - {k}).Keys == m.Keys - {k};
    assert |m.Keys| == |m| && |(m - {k}).Keys| == |m - {k}|;
  }

  function Dropped(s: Snap, t: Task): Snap {
    s.(tcb := s.tcb - {t}, container := s.container - {StateItem(t), EventItem(t)})
  }

  /** A task is destroyed. */
  lemma DropTask(s: Snap, low: nat, t: Task)
    requires OkFrom(s, low) && t in s.tcb && s.current != Some(t)
    ensures OkFrom(Dropped(s, t), low)
    ensures Statuses(Dropped(s, t)) == Statuses(s) - {t}
    ensures Waiting(Dropped(s, t)) == Waiting(s) - {t}
  {
    hide Statuses, Waiting, StatusOf;
    DropTaskStatuses(s, t);
  }

  lemma DropTaskStatuses(s: Snap, t: Task)
    ensures Statuses(Dropped(s, t)) == Statuses(s) - {t}
    ensures Waiting(Dropped(s, t)) == Waiting(s) - {t}
  {
  }

  function Reprioritised(s: Snap, t: Task, new_: TCB, top: nat): Snap
    requires StateItem(t) in s.container
  {
    s.(tcb := s.tcb[t := new_], top := top,
       container := if s.container[StateItem(t)].Ready? then s.container[StateItem(t) := Ready(new_.priority)]
                    else s.container)
  }

  /** A task's priority changes; if the task is ready it changes ready list with it. */
  lemma Reprioritise(s: Snap, low: nat, t: Task, new_: TCB, top: nat)
    requires OkFrom(s, low) && t in s.tcb && new_.priority < s.maxPriorities && new_.basePriority < s.maxPriorities
    requires s.top <= top && (s.container[StateItem(t)].Ready? ==> new_.priority <= top)
    ensures var s' := Reprioritised(s, t, new_, top);
            OkFrom(s', low) && Statuses(s') == Statuses(s) && Waiting(s') == Waiting(s)
  {
    hide Statuses, Waiting, StatusOf;
    ReprioritiseStatuses(s, t, new_, top);
  }

  lemma ReprioritiseStatuses(s: Snap, t: Task, new_: TCB, top: nat)
    requires t in s.tcb && StateItem(t) in s.container
    ensures var s' := Reprioritised(s, t, new_, top);
            Statuses(s') == Statuses(s) && Waiting(s') == Waiting(s)
  {
    OnlyStatusOf(s, Reprioritised(s, t, new_, top), t);
  }

  // ----- the passage of time -----

  /** What the passage of time up to now does to a task. */
  function Ripen(s: Status, now: nat): Status {
    if s.DelayedUntil? && s.wake <= now then Runnable else s
  }

  function RipenAll(m: map<Task, Status>, now: nat): map<Task, Status> {
    map t | t in m :: Ripen(m[t], now)
  }

  /** The tasks that are still delayed although their time has come. */
  function Due(m: map<Task, Status>, now: nat): set<Task> {
    set t | t in m && m[t].DelayedUntil? && m[t].wake <= now
  }

  lemma RipenTwice(m: map<Task, Status>, early: nat, late: nat)
    requires early <= late
    ensures RipenAll(RipenAll(m, early), late) == RipenAll(m, late)
    ensures Due(m, early) + Due(RipenAll(m, early), late) == Due(m, late)
  {
  }

  /** Some task of the set has at least the given priority. */
  ghost predicate Preempts(tasks: set<Task>, tcb: map<Task, TCB>, priority: nat) {
    exists t :: t in tasks && t in tcb && tcb[t].priority >= priority
  }

  /** Time makes ready the tasks that are due, takes them off their event lists, and
      does nothing to any other. */
  lemma TimeIsExact(m: map<Task, Status>, w: map<Task, ListId>, now: nat)
    ensures var m', w' := RipenAll(m, now), w - Due(m, now);
            forall t :: t in m ==>
              && t in m'
              && if m[t].DelayedUntil? && m[t].wake <= now then m'[t] == Runnable && t !in w'
                 else m'[t] == m[t] && (t in w' <==> t in w) && (t in w' ==> w'[t] == w[t])
  {
  }

  /** A preempting task among those that are due. */
  lemma DuePreempts(m: map<Task, Status>, now: nat, tcb: map<Task, TCB>, priority: nat)
    ensures Preempts(Due(m, now), tcb, priority) <==>
              exists t :: t in m && m[t].DelayedUntil? && m[t].wake <= now && t in tcb && tcb[t].priority >= priority
  {
    if t :| t in m && m[t].DelayedUntil? && m[t].wake <= now && t in tcb && tcb[t].priority >= priority {
      assert t in Due(m, now);
    }
  }

  lemma PreemptsMore(tasks: set<Task>, tcb: map<Task, TCB>, priority: nat, t: Task)
    requires t in tcb
    ensures Preempts(tasks + {t}, tcb, priority) <==> Preempts(tasks, tcb, priority) || tcb[t].priority >= priority
    ensures !Preempts({}, tcb, priority)
  {
  }

  lemma PreemptsEither(a: set<Task>, b: set<Task>, tcb: map<Task, TCB>, priority: nat)
    ensures Preempts(a + b, tcb, priority) <==> Preempts(a, tcb, priority) || Preempts(b, tcb, priority)
    ensures !Preempts({}, tcb, priority)
  {
  }

  /** No task sleeps past its time. */
  lemma NothingDue(s: Snap)
    requires Ok(s)
    ensures RipenAll(Statuses(s), s.epoch + s.tick) == Statuses(s)
    ensures Due(Statuses(s), s.epoch + s.tick) == {}
  {
  }

  /** The state after the tick count wraps: the two delayed lists have changed
      places. */
  function Ticked(s: Snap): Snap {
    s.(tick := 0, epoch := s.epoch + s.modulus, firstIsDelayed := !s.firstIsDelayed)
  }

  /** The invariant after the swap, but for the next unblock time, which the list
      that has become current may not respect. */
  lemma Tick(s: Snap)
    requires Ok(s) && s.tick + 1 == s.modulus
    ensures OkFrom(Ticked(s).(next := 0), 0)
    ensures Statuses(Ticked(s)) == Statuses(s) && Waiting(Ticked(s)) == Waiting(s)
  {
    hide Placed, Topped, NonePending;
    CurrentIsEmptyAtWrap(s);
  }

  /** The assertion at the swap: the list that becomes the overflow list is empty. */
  lemma CurrentIsEmptyAtWrap(s: Snap)
    requires Ok(s) && s.tick + 1 == s.modulus
    ensures forall x :: x in s.container ==> s.container[x] != CurrentList(s.firstIsDelayed)
  {
    forall x | x in s.container ensures s.container[x] != CurrentList(s.firstIsDelayed) {
      match x
      case StateItem(t) =>
      case EventItem(t) =>
    }
  }

  function Released(s: Snap, t: Task, top: nat): Snap
    requires t in s.tcb
  {
    s.(container := (s.container - {EventItem(t)})[StateItem(t) := Ready(s.tcb[t].priority)], top := top)
  }

  /** A task leaves a delayed list and its event list, and is ready. */
  lemma Release(s: Snap, low: nat, t: Task, top: nat)
    requires OkFrom(s, low) && t in s.tcb
    requires s.top <= top && s.tcb[t].priority <= top
    ensures OkFrom(Released(s, t, top), low)
    ensures Statuses(Released(s, t, top)) == Statuses(s)[t := Runnable]
    ensures Waiting(Released(s, t, top)) == Waiting(s) - {t}
  {
    hide OkFrom, Statuses, Waiting;
    Unwait(s, low, t);
    var s' := s.(container := s.container - {EventItem(t)});
    MoveReady(s', low, t, top);
  }

  lemma MoveReady(s: Snap, low: nat, t: Task, top: nat)
    requires OkFrom(s, low) && t in s.tcb && s.top <= top && s.tcb[t].priority <= top
    ensures OkFrom(Moved(s, t, Ready(s.tcb[t].priority), top), low)
    ensures Statuses(Moved(s, t, Ready(s.tcb[t].priority), top)) == Statuses(s)[t := Runnable]
    ensures Waiting(Moved(s, t, Ready(s.tcb[t].priority), top)) == Waiting(s)
  {
    MoveState(s, low, t, Ready(s.tcb[t].priority), top);
  }

  /** Releasing a task whose time has come leaves one fewer to release. */
  lemma ReleaseDue(m: map<Task, Status>, now: nat, t: Task)
    requires t in Due(m, now)
    ensures RipenAll(m[t := Runnable], now) == RipenAll(m, now)
    ensures Due(m[t := Runnable], now) == Due(m, now) - {t}
  {
  }

  /** The head of the current delayed list, when it is due. */
  lemma HeadIsDue(s: Snap, t: Task)
    requires OkFrom(s, s.tick) && StateItem(t) in s.container
    requires s.container[StateItem(t)] == CurrentList(s.firstIsDelayed)
    ensures t in s.tcb
    ensures ValueOf(s.values, StateItem(t)) <= s.tick ==> t in Due(Statuses(s), s.epoch + s.tick)
  {
  }

  /** When every task left in the current list has yet to wake, the release is
      complete. */
  lemma AllReleased(s: Snap, next: nat)
    requires OkFrom(s, s.tick) && next < s.modulus
    requires forall t :: StateItem(t) in s.container && s.container[StateItem(t)] == CurrentList(s.firstIsDelayed) ==>
               s.tick < ValueOf(s.values, StateItem(t)) && next <= ValueOf(s.values, StateItem(t))
    ensures Ok(s.(next := next))
    ensures Statuses(s.(next := next)) == Statuses(s) && Waiting(s.(next := next)) == Waiting(s)
  {
  }

  /** The next unblock time may be set to any bound on the current list. */
  lemma SetNext(s: Snap, low: nat, next: nat)
    requires OkFrom(s.(next := 0), low) && next < s.modulus
    requires forall t :: StateItem(t) in s.container && s.container[StateItem(t)] == CurrentList(s.firstIsDelayed) ==>
               next <= ValueOf(s.values, StateItem(t))
    ensures OkFrom(s.(next := next), low)
    ensures Statuses(s.(next := next)) == Statuses(s) && Waiting(s.(next := next)) == Waiting(s)
  {
  }

  lemma ForgetNext(s: Snap, low: nat)
    requires OkFrom(s, low)
    ensures OkFrom(s.(next := 0), low)
  {
  }

  lemma TickInRange(s: Snap)
    requires Ok(s)
    ensures s.tick < s.modulus && s.next < s.modulus
  {
  }

  lemma CurrentExists(s: Snap)
    requires Ok(s)
    ensures s.current.Some? ==> s.current.value in s.tcb
  {
  }

  /** The tick count moves on within the epoch. */
  lemma KeepNext(s: Snap)
    requires Ok(s) && s.tick + 1 < s.modulus
    ensures var s' := s.(tick := s.tick + 1);
            OkFrom(s', s'.tick) && Statuses(s') == Statuses(s) && Waiting(s') == Waiting(s)
  {
  }

  /** Before the next unblock time there is nothing to release. */
  lemma NotYetDue(s: Snap)
    requires OkFrom(s, s.tick) && s.tick < s.next
    ensures Ok(s) && RipenAll(Statuses(s), s.epoch + s.tick) == Statuses(s) && Due(Statuses(s), s.epoch + s.tick) == {}
  {
    NothingDue(s);
  }

  // ----- suspension of the scheduler -----

  /** The tasks on the pending-ready list. */
  function PendingOf(w: map<Task, ListId>): set<Task> {
    set t | t in w && w[t] == PendingReady
  }

  function MakeReady(m: map<Task, Status>, tasks: set<Task>): map<Task, Status> {
    map t | t in m :: if t in tasks then Runnable else m[t]
  }

  /** The end of a suspension at the time now makes ready the tasks that are pending and
      those that are due, takes them off their lists, and does nothing to any other. */
  lemma ResumingIsExact(m: map<Task, Status>, w: map<Task, ListId>, now: nat)
    ensures var ready := MakeReady(m, PendingOf(w));
            var m', w' := RipenAll(ready, now), w - PendingOf(w) - Due(ready, now);
            forall t :: t in m ==>
              && t in m'
              && if (t in w && w[t] == PendingReady) || (m[t].DelayedUntil? && m[t].wake <= now)
                 then m'[t] == Runnable && t !in w'
                 else m'[t] == m[t] && (t in w' <==> t in w) && (t in w' ==> w'[t] == w[t])
  {
  }

  lemma ResumingPreempts(m: map<Task, Status>, w: map<Task, ListId>, now: nat, tcb: map<Task, TCB>, priority: nat)
    ensures Preempts(PendingOf(w), tcb, priority) || Preempts(Due(MakeReady(m, PendingOf(w)), now), tcb, priority)
            <==>
            exists t :: && ((t in w && w[t] == PendingReady) || (t in m && m[t].DelayedUntil? && m[t].wake <= now))
                        && t in tcb && tcb[t].priority >= priority
  {
    DuePreempts(MakeReady(m, PendingOf(w)), now, tcb, priority);
    if t :| ((t in w && w[t] == PendingReady) || (t in m && m[t].DelayedUntil? && m[t].wake <= now))
            && t in tcb && tcb[t].priority >= priority {
      if t in w && w[t] == PendingReady {
        assert t in PendingOf(w);
      } else {
        assert t in MakeReady(m, PendingOf(w)) && t in Due(MakeReady(m, PendingOf(w)), now);
      }
    }
  }

  lemma MakeReadyMore(m: map<Task, Status>, tasks: set<Task>, t: Task)
    requires t in m
    ensures MakeReady(m, tasks)[t := Runnable] == MakeReady(m, tasks + {t})
  {
  }

  lemma PendingWithout(w: map<Task, ListId>, done: set<Task>)
    ensures PendingOf(w - done) == PendingOf(w) - done
    ensures PendingOf(w - done) == {} && done <= PendingOf(w) ==> done == PendingOf(w)
  {
    assert PendingOf(w - done) == PendingOf(w) - done;
    assert PendingOf(w) <= PendingOf(w - done) + done;
  }

  lemma MakeReadyNone(m: map<Task, Status>)
    ensures MakeReady(m, {}) == m
  {
  }

  lemma EveryTaskHasStatus(s: Snap)
    ensures Statuses(s).Keys == s.tcb.Keys
  {
  }

  lemma NothingPending(s: Snap)
    requires forall x :: x in s.container ==> s.container[x] != PendingReady
    ensures PendingOf(Waiting(s)) == {}
  {
  }

  /** With no task pending, the scheduler is settled. */
  lemma Settle(s: Snap, low: nat)
    requires OkFrom(s, low) && PendingOf(Waiting(s)) == {}
    ensures OkFrom(s.(settled := true), low)
    ensures Statuses(s.(settled := true)) == Statuses(s) && Waiting(s.(settled := true)) == Waiting(s)
  {
    forall t | EventItem(t) in s.container ensures s.container[EventItem(t)] != PendingReady {
      EventIsOnEventList(s, low, t);
      assert t in Waiting(s) && t !in PendingOf(Waiting(s));
    }
  }

  lemma Unsettle(s: Snap, low: nat)
    requires OkFrom(s, low)
    ensures OkFrom(s.(settled := false), low)
    ensures Statuses(s.(settled := false)) == Statuses(s) && Waiting(s.(settled := false)) == Waiting(s)
  {
  }

  /** The pending-ready list holds event items. */
  lemma PendingIsEvent(s: Snap, low: nat, x: Item)
    requires OkFrom(s, low) && x in s.container && s.container[x] == PendingReady
    ensures x.EventItem? && x.task in s.tcb && x.task in PendingOf(Waiting(s))
    ensures StateItem(x.task) in s.container && s.container[StateItem(x.task)] != Termination
  {
    match x
    case StateItem(t) =>
    case EventItem(t) =>
  }

  // ----- dispatch -----

  lemma ReadyListsHoldTasks(s: Snap, low: nat, x: Item)
    requires OkFrom(s, low) && x in s.container && s.container[x].Ready?
    ensures x.StateItem? && x.task in s.tcb && s.container[x] == Ready(s.tcb[x.task].priority)
    ensures x.task in Statuses(s) && Statuses(s)[x.task] == Runnable
  {
    match x
    case StateItem(t) =>
    case EventItem(t) =>
  }

  /** An empty ready list at the top lowers the top. */
  lemma LowerTop(container: Containers, top: nat, u: Task)
    requires Topped(container, top) && StateItem(u) in container && container[StateItem(u)].Ready?
    requires forall x :: x in container ==> container[x] != Ready(top)
    ensures top > 0 && Topped(container, top - 1)
  {
  }

  /** A task of the highest non-empty priority is selected. */
  lemma SelectTop(s: Snap, low: nat, t: Task, top: nat)
    requires OkFrom(s, low) && Topped(s.container, top) && t in s.tcb
    requires StateItem(t) in s.container && s.container[StateItem(t)] == Ready(top)
    ensures var s' := s.(current := Some(t), top := top);
            && OkFrom(s', low) && Statuses(s') == Statuses(s) && Waiting(s') == Waiting(s)
            && forall u :: u in s.tcb && Statuses(s)[u] == Runnable ==> s.tcb[u].priority <= s.tcb[t].priority
  {
  }

  lemma OkIsTopped(s: Snap)
    requires Ok(s)
    ensures Topped(s.container, s.top)
  {
  }

  lemma SettledHasNonePending(s: Snap)
    requires Ok(s) && s.settled
    ensures PendingOf(Waiting(s)) == {}
  {
  }

  lemma StateIsOnNoEventList(s: Snap, low: nat, t: Task)
    requires OkFrom(s, low) && t in s.tcb
    ensures StateItem(t) in s.container && !s.container[StateItem(t)].EventList?
  {
  }

  /** An event list holds event items of waiting tasks. */
  lemma EventListHoldsEvents(s: Snap, low: nat, x: Item)
    requires OkFrom(s, low) && x in s.container && s.container[x].EventList?
    ensures x.EventItem? && x.task in s.tcb && x.task in Waiting(s) && Waiting(s)[x.task] == s.container[x]
    ensures StateItem(x.task) in s.container && s.container[StateItem(x.task)] != Termination
  {
    match x
    case StateItem(t) =>
    case EventItem(t) =>
  }

  lemma SetCurrent(s: Snap, low: nat, t: Task)
    requires OkFrom(s, low) && t in s.tcb
    ensures var s' := s.(current := Some(t));
            OkFrom(s', low) && Statuses(s') == Statuses(s) && Waiting(s') == Waiting(s)
  {
  }

  lemma NoCurrent(s: Snap, low: nat)
    requires OkFrom(s, low) && !s.running
    ensures var s' := s.(current := None);
            OkFrom(s', low) && Statuses(s') == Statuses(s) && Waiting(s') == Waiting(s)
  {
  }

  lemma NotListedIsNotWaiting(s: Snap, t: Task)
    requires EventItem(t) !in s.container
    ensures Waiting(s) - {t} == Waiting(s)
  {
  }

  /** The termination list holds the state items of deleted tasks, which wait for
      nothing. */
  lemma FreeDeleted(s: Snap, s': Snap, t: Task)
    requires Ok(s) && StateItem(t) in s.container && s.container[StateItem(t)] == Termination
    requires s.current.Some? ==> s.current.value in Statuses(s) && Statuses(s)[s.current.value] != Deleted
    requires s' == s.(tcb := s'.tcb, container := s'.container)
    requires s'.tcb == s.tcb - {t} && s'.container == s.container - {StateItem(t)}
    ensures t in Statuses(s) && Statuses(s)[t] == Deleted
    ensures Ok(s') && Statuses(s') == Statuses(s) - {t} && Waiting(s') == Waiting(s)
  {
    hide OkFrom, Statuses, Waiting;
    TerminatedIsDeleted(s, StateItem(t));
    assert s.container - {StateItem(t), EventItem(t)} == s.container - {StateItem(t)};
    assert Waiting(s) - {t} == Waiting(s);
    DropTask(s, s.tick + 1, t);
  }

  lemma TerminatedIsDeleted(s: Snap, x: Item)
    requires Ok(s) && x in s.container && s.container[x] == Termination
    ensures x == StateItem(x.task) && x.task in s.tcb && EventItem(x.task) !in s.container
    ensures x.task in Statuses(s) && Statuses(s)[x.task] == Deleted && x.task !in Waiting(s)
  {
    match x
    case StateItem(t) => assert EventItem(t) !in s.container;
    case EventItem(t) =>
  }

  function Undeleted(m: map<Task, Status>): map<Task, Status> {
    map t | t in m && m[t] != Deleted :: m[t]
  }

  lemma UndeletedWithout(m: map<Task, Status>, t: Task)
    requires t in m && m[t] == Deleted
    ensures Undeleted(m - {t}) == Undeleted(m)
  {
  }

  lemma AllUndeleted(s: Snap)
    requires Ok(s) && forall x :: x in s.container ==> s.container[x] != Termination
    ensures Undeleted(Statuses(s)) == Statuses(s)
  {
  }

  ghost predicate NoneDelayed(m: map<Task, Status>) {
    forall t :: t in m ==> !m[t].DelayedUntil?
  }

  /** When no task is delayed the clock may be set. */
  /** The overflow counter counts the wraps of the tick count, modulo its own width. */
  ghost predicate Clocked(modulus: nat, width: nat, epoch: nat, overflows: nat) {
    modulus > 1 && width > 1 && epoch % modulus == 0 && overflows == epoch / modulus % width
  }

  lemma OneMoreWrap(modulus: nat, width: nat, epoch: nat, overflows: nat)
    requires Clocked(modulus, width, epoch, overflows)
    ensures Clocked(modulus, width, epoch + modulus, if overflows + 1 < width then overflows + 1 else 0)
  {
    var n := epoch / modulus;
    QuotientIs(epoch + modulus, modulus, n + 1, 0);
    var q := n / width;
    if overflows + 1 < width {
      QuotientIs(n + 1, width, q, overflows + 1);
    } else {
      QuotientIs(n + 1, width, q + 1, 0);
    }
  }

  lemma QuotientIs(a: nat, m: nat, q: nat, r: nat)
    requires m > 0 && a == q * m + r && r < m
    ensures a / m == q && a % m == r
  {
    Quotient(a, m);
    Distributes(a / m, q, m);
    Multiples(a / m - q, m);
  }

  /** What xTaskCheckForTimeOut reads of the time. */
  lemma ClockReads(modulus: nat, width: nat, epoch: nat, tick: nat, overflows: nat)
    requires Clocked(modulus, width, epoch, overflows) && tick < modulus
    ensures (epoch + tick) % modulus == tick && (epoch + tick) / modulus % width == overflows
  {
    QuotientIs(epoch + tick, modulus, epoch / modulus, tick);
  }

  lemma StatusesWithoutDelays(s: Snap, tick: nat)
    requires Ok(s) && s.current.Some? && tick < s.modulus
    requires NoneDelayed(Statuses(s))
    ensures var s' := s.(next := s.modulus - 1, running := true, tick := tick);
            Ok(s') && Statuses(s') == Statuses(s) && Waiting(s') == Waiting(s)
  {
    forall t | t in s.tcb ensures s.container[StateItem(t)] != Delayed1 && s.container[StateItem(t)] != Delayed2 {
      assert t in Statuses(s) && Statuses(s)[t] == StatusOf(s, t);
    }
  }

  lemma PrioritiesBounded(s: Snap)
    requires Ok(s)
    ensures forall t :: t in s.tcb ==> s.tcb[t].priority < s.maxPriorities && s.tcb[t].basePriority < s.maxPriorities
  {
  }

  /** The count of mutexes held is no part of the invariant. */
  lemma RecordMutexes(s: Snap, low: nat, t: Task, held: nat)
    requires OkFrom(s, low) && t in s.tcb
    ensures var s' := s.(tcb := s.tcb[t := s.tcb[t].(mutexesHeld := held)]);
            OkFrom(s', low) && Statuses(s') == Statuses(s) && Waiting(s') == Waiting(s)
  {
    hide Statuses, Waiting, StatusOf;
    RecordMutexesStatuses(s, t, held);
  }

  lemma RecordMutexesStatuses(s: Snap, t: Task, held: nat)
    requires t in s.tcb
    ensures var s' := s.(tcb := s.tcb[t := s.tcb[t].(mutexesHeld := held)]);
            Statuses(s') == Statuses(s) && Waiting(s') == Waiting(s)
  {
    OnlyStatusOf(s, s.(tcb := s.tcb[t := s.tcb[t].(mutexesHeld := held)]), t);
  }

  lemma NotWaitingIsNotListed(s: Snap, low: nat, t: Task)
    requires OkFrom(s, low) && t !in Waiting(s)
    ensures EventItem(t) !in s.container
  {
  }
}

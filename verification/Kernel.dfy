/** tasks.c: the scheduler.  Every operation is specified on the abstract status
    of each task, where a delayed task is one with an absolute time to wake. */
module Kernel {
  import opened RoundRobin
  import opened KernelLists
  import opened KernelState
  import opened Wrappers
  import opened Inheritance
  import opened Periods
  import KernelRuns
  import Timeouts
  import Partition
  import opened ReadyHistory

  class Scheduler {
    const maxPriorities: nat
    const modulus: nat            // the number of tick values: portMAX_DELAY + 1
    const initialTick: nat        // configINITIAL_TICK_COUNT
    const overflowModulus: nat    // the number of values of the overflow counter

    var tcb: map<Task, TCB>
    var lists: Lists
    var container: Containers
    var values: map<Item, nat>
    var current: Option<Task>

    var firstIsDelayed: bool      // pxDelayedTaskList == &xDelayedTaskList1
    var tickCount: nat
    var numOfOverflows: nat
    var pendedTicks: nat
    var nextUnblockTime: nat
    var topReadyPriority: nat
    var suspendDepth: nat
    var yieldPending: bool
    var numberOfTasks: nat
    var deletedWaitingCleanUp: nat
    var running: bool

    ghost var epoch: nat          // the absolute time at which the tick count was last 0
    ghost var settled: bool       // not suspended, and no task left pending
    ghost var log: seq<Event>     // every change made to a ready list so far

    ghost function View(): Snap
      reads this
    {
      Snap(modulus, maxPriorities, tcb, container, values, current,
           firstIsDelayed, epoch, tickCount, nextUnblockTime, topReadyPriority, settled, running)
    }

    /** The lists agree with the containers, the ready lists with their history, the
        counters with the lists, and the overflow counter with the time. */
    ghost predicate Listed()
      reads this`lists, this`log, this`container, this`values, this`tcb, this`numberOfTasks, this`deletedWaitingCleanUp
      reads this`epoch, this`numOfOverflows
    {
      && Clocked(modulus, overflowModulus, epoch, numOfOverflows)
      && Sound(lists, container, values) && Logged(lists, log)
      && numberOfTasks == |tcb|
      && deletedWaitingCleanUp == |ListOf(lists, Termination).items|
    }

    ghost predicate Valid()
      reads this
    {
      modulus > 1 && initialTick < modulus && Listed() && Ok(View()) && settled == (suspendDepth == 0)
    }

    // ----- the abstract state -----

    ghost function Now(): nat
      reads this
    {
      epoch + tickCount
    }

    ghost function Statuses(): map<Task, Status>
      reads this
    {
      KernelState.Statuses(View())
    }

    /** The event list each waiting task is on. */
    ghost function Waiting(): map<Task, ListId>
      reads this
    {
      KernelState.Waiting(View())
    }

    /** The scheduler as the abstract machine of KernelRuns. */
    ghost function Abstract(): KernelRuns.Machine
      reads this
    {
      KernelRuns.Machine(Statuses(), Waiting(), Now(), pendedTicks, suspendDepth)
    }

    ghost predicate CurrentIsReady()
      reads this
    {
      current.Some? && current.value in Statuses() && Statuses()[current.value] == Runnable
    }

    /** The running task is ready, and no ready task is more urgent. */
    ghost predicate RunsMostUrgent()
      reads this
    {
      && CurrentIsReady() && current.value in tcb
      && forall u :: u in tcb && u in Statuses() && Statuses()[u] == Runnable ==>
           tcb[u].priority <= tcb[current.value].priority
    }

    /** The tick count and the overflow counter are what the time-out check takes them
        for: the present modulo the number of tick counts, and the wraps so far. */
    lemma ClockIsAccurate()
      requires Valid()
      ensures var clock := Timeouts.Clock(modulus, overflowModulus, Now());
              clock.Valid() && clock.TickCount() == tickCount && clock.NumOfOverflows() == numOfOverflows
    {
      TickInRange(View());
      ClockReads(modulus, overflowModulus, epoch, tickCount, numOfOverflows);
    }

    /** The two counters are the total of the state items and the number of tasks to
        clean up. */
    lemma CountsAgree()
      requires Valid()
      ensures numberOfTasks == Partition.TotalItems(lists, Partition.StateLists(maxPriorities))
      ensures deletedWaitingCleanUp == |ListOf(lists, Termination).items|
    {
      Partition.TasksAreConserved(View(), tickCount + 1, lists);
    }

    // ----- list primitives -----

    /** uxListRemove */
    method ListRemove(x: Item) returns (remaining: nat)
      requires Sound(lists, container, values) && Logged(lists, log) && x in container
      modifies this`lists, this`log, this`container
      ensures Sound(lists, container, values) && Logged(lists, log)
      ensures log == Noted(old(log), old(container[x]), Leave(x)) && Extends(old(log), log)
      ensures container == old(container) - {x}
      ensures lists == old(lists)[old(container[x]) := Without(ListOf(old(lists), old(container[x])), x)]
      ensures remaining == |ListOf(lists, old(container[x])).items|
      ensures remaining == |ListOf(old(lists), old(container[x])).items| - 1
    {
      hide Sound, Logged, Clocked, Without;
      TakenFromList(lists, container, values, log, x);
      var l := container[x];
      lists := lists[l := Without(ListOf(lists, l), x)];
      container, log := container - {x}, Noted(log, l, Leave(x));
      remaining := |ListOf(lists, l).items|;
    }

    /** vListInsertEnd */
    method ListInsertEnd(l: ListId, x: Item)
      requires Sound(lists, container, values) && Logged(lists, log) && x !in container && !l.Delayed1? && !l.Delayed2?
      modifies this`lists, this`log, this`container
      ensures Sound(lists, container, values) && Logged(lists, log)
      ensures log == Noted(old(log), l, Arrive(x)) && Extends(old(log), log)
      ensures container == old(container)[x := l]
      ensures lists == old(lists)[l := WithLast(ListOf(old(lists), l), x)]
      ensures |ListOf(lists, l).items| == |ListOf(old(lists), l).items| + 1
    {
      hide Sound, Logged, Clocked, WithLast;
      PutLast(lists, container, values, log, l, x);
      lists := lists[l := WithLast(ListOf(lists, l), x)];
      container, log := container[x := l], Noted(log, l, Arrive(x));
    }

    /** vListInsert, which the scheduler never applies to a ready list. */
    method ListInsert(l: ListId, x: Item)
      requires Sound(lists, container, values) && Logged(lists, log) && x !in container && !l.Ready?
      modifies this`lists, this`container
      ensures Sound(lists, container, values) && Logged(lists, log)
      ensures container == old(container)[x := l]
      ensures lists == old(lists)[l := WithSorted(ListOf(old(lists), l), x, values)]
    {
      hide Sound, Logged, Clocked, WithSorted;
      PutSorted(lists, container, values, log, l, x);
      lists := lists[l := WithSorted(ListOf(lists, l), x, values)];
      container := container[x := l];
    }

    /** listSET_LIST_ITEM_VALUE, on an item that no delayed list holds. */
    method SetItemValue(x: Item, v: nat)
      requires Sound(lists, container, values)
      requires x in container ==> container[x] != Delayed1 && container[x] != Delayed2
      modifies this`values
      ensures Sound(lists, container, values)
      ensures values == old(values)[x := v]
    {
      assert x !in ListOf(lists, Delayed1).items && x !in ListOf(lists, Delayed2).items;
      ghost var before := values;
      values := values[x := v];
      assert KeysOf(ListOf(lists, Delayed1).items, values) == KeysOf(ListOf(lists, Delayed1).items, before);
      assert KeysOf(ListOf(lists, Delayed2).items, values) == KeysOf(ListOf(lists, Delayed2).items, before);
    }

    /** prvAddTaskToReadyList */
    method AddTaskToReadyList(t: Task)
      requires Sound(lists, container, values) && Logged(lists, log) && t in tcb && StateItem(t) !in container
      modifies this`lists, this`log, this`container, this`topReadyPriority
      ensures Sound(lists, container, values) && Logged(lists, log)
      ensures log == old(log) + [Event(tcb[t].priority, Arrive(StateItem(t)))]
      ensures container == old(container)[StateItem(t) := Ready(tcb[t].priority)]
      ensures lists == old(lists)[Ready(tcb[t].priority) :=
              WithLast(ListOf(old(lists), Ready(tcb[t].priority)), StateItem(t))]
      ensures topReadyPriority == Max(old(topReadyPriority), tcb[t].priority)
    {
      if tcb[t].priority > topReadyPriority {
        topReadyPriority := tcb[t].priority;
      }
      ListInsertEnd(Ready(tcb[t].priority), StateItem(t));
    }

    /** A state item leaves its list for the ready list of the task's priority. */
    method MoveToReadyList(t: Task)
      requires Sound(lists, container, values) && Logged(lists, log) && t in tcb && StateItem(t) in container
      modifies this`lists, this`log, this`container, this`topReadyPriority
      ensures Sound(lists, container, values) && Logged(lists, log) && Extends(old(log), log)
      ensures container == old(container)[StateItem(t) := Ready(tcb[t].priority)]
      ensures topReadyPriority == Max(old(topReadyPriority), tcb[t].priority)
      ensures old(container)[StateItem(t)] != Termination ==>
              ListOf(lists, Termination) == old(ListOf(lists, Termination))
      ensures !old(container)[StateItem(t)].EventList? ==> SameEventLists(lists, old(lists))
      ensures !old(container)[StateItem(t)].Ready? ==>
                ListOf(lists, Ready(tcb[t].priority)) ==
                  WithLast(old(ListOf(lists, Ready(tcb[t].priority))), StateItem(t))
    {
      hide Sound, Logged, Clocked, Without, WithLast;
      ghost var was := container;
      var _ := ListRemove(StateItem(t));
      AddTaskToReadyList(t);
      assert container == was[StateItem(t) := Ready(tcb[t].priority)];
    }

    // ----- time -----

    /** prvResetNextTaskUnblockTime */
    method ResetNextTaskUnblockTime(ghost low: nat)
      requires modulus > 1 && Listed() && OkFrom(View().(next := 0), low)
      modifies this`nextUnblockTime
      ensures Listed() && OkFrom(View(), low)
      ensures var delayed := ListOf(lists, CurrentList(firstIsDelayed)).items;
              && nextUnblockTime == (if delayed == [] then modulus - 1 else ValueOf(values, delayed[0]))
              && forall x :: x in delayed ==> nextUnblockTime <= ValueOf(values, x)
      ensures Statuses() == old(Statuses()) && Waiting() == old(Waiting())
    {
      hide Sound, Logged, Clocked, OkFrom, KernelState.Waiting, KernelState.Statuses;
      var delayed := ListOf(lists, CurrentList(firstIsDelayed)).items;
      ghost var s := View();
      NextUnblockIsEarliest(lists, container, values, CurrentList(firstIsDelayed), modulus);
      if delayed == [] {
        nextUnblockTime := modulus - 1;
      } else {
        DelayedIsState(s.(next := 0), low, delayed[0]);
        nextUnblockTime := ValueOf(values, delayed[0]);
      }
      SetNext(s, low, nextUnblockTime);
    }

    /** The list work of prvAddCurrentTaskToDelayedList, with a time to wake. */
    method FileDelayed(x: Item, timeToWake: nat)
      requires Sound(lists, container, values) && Logged(lists, log)
      requires x in container && container[x].Ready?
      modifies this`lists, this`log, this`container, this`values, this`nextUnblockTime
      ensures Extends(old(log), log)
      ensures Sound(lists, container, values) && Logged(lists, log)
      ensures container == old(container)[x := CurrentList(firstIsDelayed == (tickCount <= timeToWake))]
      ensures values == old(values)[x := timeToWake]
      ensures nextUnblockTime == if tickCount <= timeToWake < old(nextUnblockTime) then timeToWake
              else old(nextUnblockTime)
      ensures ListOf(lists, Termination) == old(ListOf(lists, Termination)) && SameEventLists(lists, old(lists))
    {
      hide Sound, Logged, Clocked, Without, WithSorted;
      ghost var was := container;
      var _ := ListRemove(x);
      SetItemValue(x, timeToWake);
      if timeToWake < tickCount {
        ListInsert(CurrentList(!firstIsDelayed), x);
      } else {
        ListInsert(CurrentList(firstIsDelayed), x);
        if timeToWake < nextUnblockTime {
          nextUnblockTime := timeToWake;
        }
      }
      assert container == was[x := CurrentList(firstIsDelayed == (tickCount <= timeToWake))];
    }

    /** The state item of a ready task moves to the suspended list. */
    method SuspendItem(t: Task)
      requires Listed() && StateItem(t) in container && container[StateItem(t)].Ready?
      modifies this`lists, this`log, this`container
      ensures Extends(old(log), log)
      ensures Listed() && container == old(container)[StateItem(t) := Suspended]
      ensures SameEventLists(lists, old(lists))
    {
      hide Sound, Logged, Clocked, Without, WithLast;
      ghost var was := container;
      var _ := ListRemove(StateItem(t));
      ListInsertEnd(Suspended, StateItem(t));
      assert container == was[StateItem(t) := Suspended];
    }

    /** prvAddCurrentTaskToDelayedList, blocking indefinitely. */
    method BlockCurrent()
      requires Valid() && CurrentIsReady()
      modifies this`lists, this`log, this`container
      ensures Extends(old(log), log)
      ensures Valid()
      ensures Statuses() == old(Statuses())[current.value := Blocked]
      ensures Waiting() == old(Waiting())
      ensures SameEventLists(lists, old(lists))
    {
      hide Listed, OkFrom, Extends, KernelState.Waiting, KernelState.Statuses;
      var t := current.value;
      ghost var s := View();
      RunnableIsReady(s, tickCount + 1, t);
      SuspendItem(t);
      MoveState(s, tickCount + 1, t, Suspended, topReadyPriority);
      assert View() == Moved(s, t, Suspended, topReadyPriority);
    }

    /** prvAddCurrentTaskToDelayedList, with a time to wake. */
    method DelayCurrent(ticksToWait: nat)
      requires Valid() && CurrentIsReady() && 0 < ticksToWait < modulus
      modifies this`lists, this`log, this`container, this`values, this`nextUnblockTime
      ensures Extends(old(log), log)
      ensures Valid()
      ensures Statuses() == old(Statuses())[current.value := DelayedUntil(Now() + ticksToWait)]
      ensures Waiting() == old(Waiting())
      ensures SameEventLists(lists, old(lists)) && SameEventValues(values, old(values))
    {
      hide Sound, Logged, Clocked, OkFrom, Without, WithLast, KernelState.Waiting, KernelState.Statuses;
      var t := current.value;
      ghost var s := View();
      RunnableIsReady(s, tickCount + 1, t);
      var timeToWake := if tickCount + ticksToWait < modulus then tickCount + ticksToWait
                        else tickCount + ticksToWait - modulus;
      FileDelayed(StateItem(t), timeToWake);
      Sleep(s, t, ticksToWait);
      assert View() == Asleep(s, t, ticksToWait);
    }

    /** prvAddCurrentTaskToDelayedList */
    method AddCurrentTaskToDelayedList(ticksToWait: nat, canBlockIndefinitely: bool)
      requires Valid() && CurrentIsReady() && 0 < ticksToWait < modulus
      modifies this`lists, this`log, this`container, this`values, this`nextUnblockTime
      ensures Extends(old(log), log)
      ensures Valid()
      ensures KernelRuns.Changes(old(Abstract()), Abstract(), current.value)
      ensures Statuses() == old(Statuses())[current.value :=
                if ticksToWait == modulus - 1 && canBlockIndefinitely then Blocked
                else DelayedUntil(Now() + ticksToWait)]
      ensures Waiting() == old(Waiting())
      ensures SameEventLists(lists, old(lists)) && SameEventValues(values, old(values))
    {
      hide Listed, Ok, KernelState.Waiting, KernelState.Statuses, KernelRuns.Changes;
      ghost var k := Abstract();
      if ticksToWait == modulus - 1 && canBlockIndefinitely {
        BlockCurrent();
      } else {
        DelayCurrent(ticksToWait);
      }
      KernelRuns.OnlyChanges(k, Abstract(), current.value);
    }

    /** Both items of a task that becomes ready: the event item leaves its list. */
    method ReadyItems(t: Task, ghost low: nat)
      requires Listed() && OkFrom(View(), low) && t in tcb
      requires StateItem(t) in container && container[StateItem(t)] != Termination
      modifies this`lists, this`log, this`container, this`topReadyPriority
      ensures Extends(old(log), log)
      ensures Listed() && topReadyPriority == Max(old(topReadyPriority), tcb[t].priority)
      ensures container == (old(container) - {EventItem(t)})[StateItem(t) := Ready(tcb[t].priority)]
      ensures EventItem(t) !in old(container) ==> SameEventLists(lists, old(lists))
      ensures EventItem(t) in old(container) && old(container[EventItem(t)]).EventList? ==>
                && EventItem(t) in ListOf(old(lists), old(container[EventItem(t)])).items
                && OnlyTaken(lists, old(lists), old(container[EventItem(t)]), EventItem(t))
      ensures !old(container[StateItem(t)]).Ready? ==>
                ListOf(lists, Ready(tcb[t].priority)) ==
                  WithLast(old(ListOf(lists, Ready(tcb[t].priority))), StateItem(t))
    {
      hide Sound, Logged, Clocked, OkFrom, Without, WithLast;
      ghost var was := container;
      StateIsOnNoEventList(View(), low, t);
      if EventItem(t) in container {
        IsInItsList(lists, container, values, EventItem(t));
        EventIsOnEventList(View(), low, t);
        var _ := ListRemove(EventItem(t));
      }
      MoveToReadyList(t);
      assert container == (was - {EventItem(t)})[StateItem(t) := Ready(tcb[t].priority)];
    }

    /** The steps by which a waiting task becomes ready: its event item, if listed,
        and its state item are removed, and it joins the end of the round of its
        priority. */
    method MakeTaskReady(t: Task, ghost low: nat)
      requires modulus > 1 && Listed() && OkFrom(View(), low)
      requires StateItem(t) in container && container[StateItem(t)] != Termination
      modifies this`lists, this`log, this`container, this`topReadyPriority
      ensures Extends(old(log), log)
      ensures Listed() && OkFrom(View(), low) && t in tcb
      ensures Statuses() == old(Statuses())[t := Runnable] && Waiting() == old(Waiting()) - {t}
      ensures container == (old(container) - {EventItem(t)})[StateItem(t) := Ready(tcb[t].priority)]
      ensures EventItem(t) !in old(container) ==> SameEventLists(lists, old(lists))
      ensures EventItem(t) in old(container) && old(container[EventItem(t)]).EventList? ==>
                && EventItem(t) in ListOf(old(lists), old(container[EventItem(t)])).items
                && OnlyTaken(lists, old(lists), old(container[EventItem(t)]), EventItem(t))
      ensures !old(container[StateItem(t)]).Ready? ==>
                ListOf(lists, Ready(tcb[t].priority)) ==
                  WithLast(old(ListOf(lists, Ready(tcb[t].priority))), StateItem(t))
    {
      hide Listed, OkFrom, OnlyTaken, Extends, WithLast, KernelState.Waiting, KernelState.Statuses;
      ghost var s := View();
      OnlyTasksAreListed(s, low, t);
      ReadyItems(t, low);
      Release(s, low, t, topReadyPriority);
      assert View() == Released(s, t, topReadyPriority);
    }

    /** The body of the release loop of xTaskIncrementTick: either the head of the
        delayed list is due and is released, or the loop is over. */
    method ReleaseNext() returns (over: bool, t: Task)
      requires modulus > 1 && Listed() && OkFrom(View(), tickCount)
      modifies this`lists, this`log, this`container, this`topReadyPriority, this`nextUnblockTime
      ensures Extends(old(log), log)
      ensures over ==> Listed() && Ok(View()) && Statuses() == old(Statuses()) && Waiting() == old(Waiting())
      ensures !over ==> Listed() && OkFrom(View(), tickCount) && t in tcb
      ensures !over ==> t in old(Due(Statuses(), Now()))
      ensures !over ==> Statuses() == old(Statuses())[t := Runnable] && Waiting() == old(Waiting()) - {t}
    {
      hide Sound, Logged, Clocked, OkFrom, KernelState.Waiting, KernelState.Statuses, Due;
      over, t := true, 0;
      var delayed := ListOf(lists, CurrentList(firstIsDelayed)).items;
      NextUnblockIsEarliest(lists, container, values, CurrentList(firstIsDelayed), modulus);
      ghost var s := View();
      if delayed == [] {
        nextUnblockTime := modulus - 1;
        AllReleased(s, nextUnblockTime);
      } else {
        DelayedIsState(s, tickCount, delayed[0]);
        var itemValue := ValueOf(values, delayed[0]);
        if tickCount < itemValue {
          nextUnblockTime := itemValue;
          AllReleased(s, nextUnblockTime);
        } else {
          over, t := false, delayed[0].task;
          HeadIsDue(s, t);
          MakeTaskReady(t, tickCount);
        }
      }
    }

    /** The release loop of xTaskIncrementTick. */
    method ReleaseDelayedTasks() returns (switchRequired: bool)
      requires modulus > 1 && Listed() && OkFrom(View(), tickCount)
      requires current.Some? && current.value in tcb
      modifies this`lists, this`log, this`container, this`topReadyPriority, this`nextUnblockTime
      ensures Extends(old(log), log)
      ensures Listed() && Ok(View())
      ensures Statuses() == RipenAll(old(Statuses()), Now())
      ensures Waiting() == old(Waiting()) - Due(old(Statuses()), Now())
      ensures switchRequired <==> Preempts(Due(old(Statuses()), Now()), tcb, tcb[current.value].priority)
    {
      hide Listed, OkFrom, KernelState.Waiting, KernelState.Statuses, Due, RipenAll;
      ghost var m, w := Statuses(), Waiting();
      ghost var released: set<Task> := {};
      switchRequired := false;
      var over := false;
      while !over
        invariant Extends(old(log), log)
        invariant Listed() && if over then Ok(View()) else OkFrom(View(), tickCount)
        invariant RipenAll(Statuses(), Now()) == RipenAll(m, Now())
        invariant Due(m, Now()) == released + Due(Statuses(), Now())
        invariant Waiting() == w - released
        invariant switchRequired <==> Preempts(released, tcb, tcb[current.value].priority)
        decreases !over, |Due(Statuses(), Now())|
      {
        ghost var before := Statuses();
        var t;
        over, t := ReleaseNext();
        if !over {
          ReleaseDue(before, Now(), t);
          PreemptsMore(released, tcb, tcb[current.value].priority, t);
          released := released + {t};
          if tcb[t].priority >= tcb[current.value].priority {
            switchRequired := true;
          }
        }
      }
      NothingDue(View());
    }

    /** The delayed lists change places, and a wrap is counted. */
    method SwapDelayedLists()
      requires Listed()
      modifies this`firstIsDelayed, this`epoch, this`numOfOverflows
      ensures Listed() && firstIsDelayed == !old(firstIsDelayed) && epoch == old(epoch) + modulus
    {
      hide Sound, Logged, Clocked;
      OneMoreWrap(modulus, overflowModulus, epoch, numOfOverflows);
      firstIsDelayed := !firstIsDelayed;
      numOfOverflows := if numOfOverflows + 1 < overflowModulus then numOfOverflows + 1 else 0;
      epoch := epoch + modulus;
    }

    /** The assertion of taskSWITCH_DELAYED_LISTS. */
    lemma CurrentListIsEmpty(was: Snap)
      requires Listed() && Ok(was) && was.tick + 1 == was.modulus
      requires was.container == container && was.firstIsDelayed == firstIsDelayed
      ensures ListOf(lists, CurrentList(firstIsDelayed)).items == []
    {
      hide Sound, Logged, Clocked, Ok;
      HeadIsIn(lists, container, values, CurrentList(firstIsDelayed));
      CurrentIsEmptyAtWrap(was);
    }

    /** taskSWITCH_DELAYED_LISTS.  Its assertion holds: before the tick count
        wrapped, every task in the list that was current had been released. */
    method SwitchDelayedLists(ghost was: Snap)
      requires modulus > 1 && Listed() && Ok(was) && was.tick + 1 == modulus && View() == was.(tick := 0)
      modifies this`firstIsDelayed, this`epoch, this`numOfOverflows, this`nextUnblockTime
      ensures Listed() && Now() == was.epoch + was.tick + 1 && epoch == was.epoch + modulus
      ensures OkFrom(View(), 0) && Statuses() == KernelState.Statuses(was) && Waiting() == KernelState.Waiting(was)
    {
      hide Listed, Ok, OkFrom, KernelState.Waiting, KernelState.Statuses;
      CurrentListIsEmpty(was);
      assert ListOf(lists, CurrentList(firstIsDelayed)).items == [];
      SwapDelayedLists();
      assert View() == Ticked(was);
      Tick(was);
      ResetNextTaskUnblockTime(0);
    }

    /** The first half of xTaskIncrementTick: the tick count moves on. */
    method AdvanceTickCount()
      requires Valid()
      modifies this`firstIsDelayed, this`epoch, this`numOfOverflows, this`nextUnblockTime, this`tickCount
      ensures Listed() && OkFrom(View(), tickCount)
      ensures Now() == old(Now()) + 1
      ensures Statuses() == old(Statuses()) && Waiting() == old(Waiting())
    {
      hide Listed, OkFrom, KernelState.Waiting, KernelState.Statuses;
      ghost var s := View();
      TickInRange(s);
      tickCount := if tickCount + 1 < modulus then tickCount + 1 else 0;
      if tickCount == 0 {
        SwitchDelayedLists(s);
      } else {
        KeepNext(s);
      }
    }

    /** xTaskIncrementTick while the scheduler is not suspended. */
    method TakeTick() returns (switchRequired: bool)
      requires Valid() && current.Some? && current.value in tcb && suspendDepth == 0
      modifies this`lists, this`log, this`container, this`topReadyPriority, this`nextUnblockTime
      modifies this`firstIsDelayed, this`epoch, this`numOfOverflows, this`tickCount
      ensures Extends(old(log), log)
      ensures Valid() && Now() == old(Now()) + 1
      ensures Statuses() == RipenAll(old(Statuses()), Now())
      ensures Waiting() == old(Waiting()) - Due(old(Statuses()), Now())
      ensures switchRequired <==> Preempts(Due(old(Statuses()), Now()), tcb, tcb[current.value].priority)
    {
      hide Listed, OkFrom, KernelState.Waiting, KernelState.Statuses, Due, RipenAll;
      AdvanceTickCount();
      switchRequired := false;
      if tickCount >= nextUnblockTime {
        switchRequired := ReleaseDelayedTasks();
      } else {
        NotYetDue(View());
      }
    }

    /** xTaskIncrementTick */
    method IncrementTick() returns (switchRequired: bool)
      requires Valid() && current.Some?
      modifies this`lists, this`log, this`container, this`topReadyPriority, this`nextUnblockTime
      modifies this`firstIsDelayed, this`epoch, this`numOfOverflows, this`tickCount, this`pendedTicks
      ensures Extends(old(log), log)
      ensures Valid() && Abstract() == KernelRuns.AfterTick(old(Abstract()))
      ensures suspendDepth > 0 ==> Now() == old(Now()) && Statuses() == old(Statuses()) && Waiting() == old(Waiting())
      ensures suspendDepth > 0 ==> pendedTicks == old(pendedTicks) + 1
      ensures suspendDepth == 0 ==> Now() == old(Now()) + 1 && pendedTicks == old(pendedTicks)
      ensures suspendDepth == 0 ==> Statuses() == RipenAll(old(Statuses()), Now())
      ensures suspendDepth == 0 ==> Waiting() == old(Waiting()) - Due(old(Statuses()), Now())
      ensures current.value in tcb
      ensures suspendDepth == 0 ==>
                forall t :: t in old(Statuses()) ==>
                  && t in Statuses()
                  && if old(Statuses())[t].DelayedUntil? && old(Statuses())[t].wake <= Now()
                     then Statuses()[t] == Runnable && t !in Waiting()
                     else
                       && Statuses()[t] == old(Statuses())[t] && (t in Waiting() <==> t in old(Waiting()))
                       && (t in Waiting() ==> Waiting()[t] == old(Waiting())[t])
      ensures switchRequired <==>
                || yieldPending
                || (suspendDepth == 0
                    && exists t :: t in old(Statuses()) && old(Statuses())[t].DelayedUntil?
                                   && old(Statuses())[t].wake <= Now()
                                   && t in tcb && tcb[t].priority >= tcb[current.value].priority)
      ensures switchRequired <==>
                || yieldPending
                || (suspendDepth == 0 && Preempts(Due(old(Statuses()), Now()), tcb, tcb[current.value].priority))
    {
      hide Listed, OkFrom, KernelState.Waiting, KernelState.Statuses, Due, RipenAll, Preempts;
      ghost var m, w, now := Statuses(), Waiting(), Now() + 1;
      TimeIsExact(m, w, now);
      CurrentExists(View());
      DuePreempts(m, now, tcb, tcb[current.value].priority);
      switchRequired := false;
      if suspendDepth == 0 {
        switchRequired := TakeTick();
      } else {
        pendedTicks := pendedTicks + 1;
      }
      if yieldPending {
        switchRequired := true;
      }
    }

    // ----- suspension of the scheduler -----

    /** vTaskSuspendAll */
    method SuspendAll()
      requires Valid()
      modifies this`suspendDepth, this`settled
      ensures Valid() && Abstract() == KernelRuns.AfterSuspendAll(old(Abstract()))
      ensures suspendDepth == old(suspendDepth) + 1
      ensures Statuses() == old(Statuses()) && Waiting() == old(Waiting())
    {
      hide Listed, OkFrom, KernelState.Waiting, KernelState.Statuses;
      Unsettle(View(), tickCount + 1);
      suspendDepth, settled := suspendDepth + 1, false;
    }

    /** One turn of the loop of xTaskResumeAll over the pending-ready list. */
    method ReadyPendingHead() returns (t: Task)
      requires modulus > 1 && Listed() && OkFrom(View(), tickCount + 1)
      requires ListOf(lists, PendingReady).items != [] && current.Some? && current.value in tcb
      modifies this`lists, this`log, this`container, this`topReadyPriority, this`yieldPending
      ensures Extends(old(log), log)
      ensures Listed() && OkFrom(View(), tickCount + 1) && t in tcb
      ensures t in old(PendingOf(Waiting()))
      ensures Statuses() == old(Statuses())[t := Runnable] && Waiting() == old(Waiting()) - {t}
      ensures yieldPending == (old(yieldPending) || tcb[t].priority >= tcb[current.value].priority)
    {
      hide Sound, Logged, Clocked, OkFrom, KernelState.Waiting, KernelState.Statuses, WithLast, PendingOf;
      HeadIsIn(lists, container, values, PendingReady);
      var x := ListOf(lists, PendingReady).items[0];
      PendingIsEvent(View(), tickCount + 1, x);
      t := x.task;
      if tcb[t].priority >= tcb[current.value].priority {
        yieldPending := true;
      }
      MakeTaskReady(t, tickCount + 1);
    }

    /** With the pending-ready list empty, the scheduler is settled. */
    ghost method SettleDown()
      requires modulus > 1 && Listed() && OkFrom(View(), tickCount + 1)
      requires ListOf(lists, PendingReady).items == []
      modifies this`settled
      ensures Listed() && Ok(View()) && settled
      ensures Statuses() == old(Statuses()) && Waiting() == old(Waiting()) && PendingOf(Waiting()) == {}
    {
      hide Sound, Logged, Clocked, OkFrom, KernelState.Waiting, KernelState.Statuses, PendingOf;
      HeadIsIn(lists, container, values, PendingReady);
      NothingPending(View());
      Settle(View(), tickCount + 1);
      settled := true;
    }

    /** The loop of xTaskResumeAll over the pending-ready list. */
    method DrainPendingReady() returns (moved: bool)
      requires modulus > 1 && Listed() && OkFrom(View(), tickCount + 1)
      requires current.Some? && current.value in tcb
      modifies this`lists, this`log, this`container, this`topReadyPriority, this`yieldPending, this`settled
      ensures Extends(old(log), log)
      ensures Listed() && Ok(View()) && settled
      ensures Statuses() == MakeReady(old(Statuses()), old(PendingOf(Waiting())))
      ensures Waiting() == old(Waiting()) - old(PendingOf(Waiting()))
      ensures yieldPending <==>
                || old(yieldPending)
                || Preempts(old(PendingOf(Waiting())), tcb, tcb[current.value].priority)
    {
      hide Listed, OkFrom, Ok, KernelState.Waiting, KernelState.Statuses, MakeReady, PendingOf, Preempts;
      ghost var m, w, done: set<Task> := Statuses(), Waiting(), {};
      moved := false;
      MakeReadyNone(m);
      PreemptsMore({}, tcb, tcb[current.value].priority, current.value);
      EveryTaskHasStatus(View());
      while ListOf(lists, PendingReady).items != []
        invariant Extends(old(log), log)
        invariant Listed() && OkFrom(View(), tickCount + 1)
        invariant Statuses() == MakeReady(m, done)
        invariant Waiting() == w - done && done <= PendingOf(w)
        invariant yieldPending <==> old(yieldPending) || Preempts(done, tcb, tcb[current.value].priority)
        decreases |PendingOf(w) - done|
      {
        PendingWithout(w, done);
        var t := ReadyPendingHead();
        MakeReadyMore(m, done, t);
        PreemptsMore(done, tcb, tcb[current.value].priority, t);
        done, moved := done + {t}, true;
      }
      SettleDown();
      PendingWithout(w, done);
    }

    /** One iteration of the loop of xTaskResumeAll over the ticks that were pended. */
    method ReplayTick()
      requires Valid() && current.Some? && suspendDepth == 0
      modifies this`lists, this`log, this`container, this`topReadyPriority, this`nextUnblockTime, this`yieldPending
      modifies this`firstIsDelayed, this`epoch, this`numOfOverflows, this`tickCount, this`pendedTicks
      ensures Extends(old(log), log)
      ensures Valid() && current.value in tcb && pendedTicks == old(pendedTicks)
      ensures Now() == old(Now()) + 1 && Statuses() == RipenAll(old(Statuses()), Now())
      ensures Waiting() == old(Waiting()) - Due(old(Statuses()), Now())
      ensures yieldPending <==>
                || old(yieldPending)
                || Preempts(Due(old(Statuses()), Now()), tcb, tcb[current.value].priority)
    {
      hide Listed, OkFrom, KernelState.Waiting, KernelState.Statuses, Due, RipenAll, Preempts;
      var switchRequired := IncrementTick();
      if switchRequired {
        yieldPending := true;
      }
    }

    /** The loop of xTaskResumeAll over the ticks that were pended. */
    method ReplayPendedTicks()
      requires Valid() && current.Some? && suspendDepth == 0
      modifies this`lists, this`log, this`container, this`topReadyPriority, this`nextUnblockTime, this`yieldPending
      modifies this`firstIsDelayed, this`epoch, this`numOfOverflows, this`tickCount, this`pendedTicks
      ensures Extends(old(log), log)
      ensures Valid() && current.value in tcb
      ensures Now() == old(Now() + pendedTicks) && pendedTicks == 0
      ensures Statuses() == RipenAll(old(Statuses()), Now())
      ensures Waiting() == old(Waiting()) - Due(old(Statuses()), Now())
      ensures yieldPending <==>
                || old(yieldPending)
                || Preempts(Due(old(Statuses()), Now()), tcb, tcb[current.value].priority)
    {
      hide Listed, OkFrom, KernelState.Waiting, KernelState.Statuses, Due, RipenAll, Preempts;
      CurrentExists(View());
      ghost var m, w, start := Statuses(), Waiting(), Now();
      ghost var priority := tcb[current.value].priority;
      assert RipenAll(m, start) == m && Due(m, start) == {} by { NothingDue(View()); }
      PreemptsEither({}, {}, tcb, priority);
      var pendedCounts := pendedTicks;
      while pendedCounts > 0
        invariant Extends(old(log), log)
        invariant Valid()
        invariant Now() + pendedCounts == start + old(pendedTicks)
        invariant Statuses() == RipenAll(m, Now()) && Waiting() == w - Due(m, Now())
        invariant yieldPending <==> old(yieldPending) || Preempts(Due(m, Now()), tcb, priority)
      {
        RipenTwice(m, Now(), Now() + 1);
        PreemptsEither(Due(m, Now()), Due(Statuses(), Now() + 1), tcb, priority);
        ReplayTick();
        pendedCounts := pendedCounts - 1;
      }
      pendedTicks := 0;
    }

    /** The pending tasks are made ready, and the next unblock time, which may have been
        that of one of them, is set again. */
    method ReadyPendingTasks()
      requires modulus > 1 && initialTick < modulus && Listed() && Ok(View()) && suspendDepth == 0
      requires current.Some? && current.value in tcb
      modifies this`settled, this`lists, this`log, this`container, this`topReadyPriority
      modifies this`nextUnblockTime, this`yieldPending
      ensures Extends(old(log), log)
      ensures Valid()
      ensures Statuses() == MakeReady(old(Statuses()), PendingOf(old(Waiting())))
      ensures Waiting() == old(Waiting()) - PendingOf(old(Waiting()))
      ensures yieldPending <==>
                || old(yieldPending)
                || Preempts(PendingOf(old(Waiting())), tcb, tcb[current.value].priority)
    {
      hide Listed, OkFrom, KernelState.Waiting, KernelState.Statuses, MakeReady, PendingOf, Preempts;
      var moved := DrainPendingReady();
      if moved {
        ForgetNext(View(), tickCount + 1);
        ResetNextTaskUnblockTime(tickCount + 1);
      }
    }

    /** The part of xTaskResumeAll that runs when the last suspension ends. */
    method EndSuspension()
      requires modulus > 1 && initialTick < modulus && Listed() && Ok(View()) && suspendDepth == 0 && current.Some?
      modifies this`settled, this`lists, this`log, this`container, this`topReadyPriority
      modifies this`nextUnblockTime, this`firstIsDelayed, this`epoch, this`numOfOverflows, this`tickCount
      modifies this`pendedTicks, this`yieldPending
      ensures Extends(old(log), log)
      ensures Valid()
      ensures Now() == old(Now() + pendedTicks) && pendedTicks == 0
      ensures Statuses() == RipenAll(MakeReady(old(Statuses()), PendingOf(old(Waiting()))), Now())
      ensures Waiting() == old(Waiting()) - PendingOf(old(Waiting()))
                           - Due(MakeReady(old(Statuses()), PendingOf(old(Waiting()))), Now())
      ensures current.value in tcb
      ensures var due := Due(MakeReady(old(Statuses()), PendingOf(old(Waiting()))), Now());
              yieldPending <==>
                || old(yieldPending)
                || Preempts(PendingOf(old(Waiting())), tcb, tcb[current.value].priority)
                || Preempts(due, tcb, tcb[current.value].priority)
    {
      hide Listed, OkFrom, KernelState.Waiting, KernelState.Statuses, Due, RipenAll, MakeReady, PendingOf,
        Preempts;
      CurrentExists(View());
      ReadyPendingTasks();
      ReplayPendedTicks();
    }

    /** xTaskResumeAll */
    method ResumeAll() returns (alreadyYielded: bool)
      requires Valid() && suspendDepth > 0 && current.Some?
      modifies this`suspendDepth, this`settled, this`lists, this`log, this`container, this`topReadyPriority
      modifies this`nextUnblockTime, this`firstIsDelayed, this`epoch, this`numOfOverflows, this`tickCount
      modifies this`pendedTicks, this`yieldPending
      ensures Extends(old(log), log)
      ensures Valid() && Abstract() == KernelRuns.AfterResumeAll(old(Abstract()))
      ensures suspendDepth == old(suspendDepth) - 1
      ensures alreadyYielded == (suspendDepth == 0 && yieldPending)
      ensures current.value in tcb
      ensures suspendDepth > 0 ==>
                && yieldPending == old(yieldPending) && Statuses() == old(Statuses()) && Waiting() == old(Waiting())
                && Now() == old(Now()) && pendedTicks == old(pendedTicks)
      ensures suspendDepth == 0 ==> Now() == old(Now() + pendedTicks) && pendedTicks == 0
      ensures suspendDepth == 0 ==>
                forall t :: t in old(Statuses()) ==>
                  && t in Statuses()
                  && if (t in old(Waiting()) && old(Waiting())[t] == PendingReady)
                        || (old(Statuses())[t].DelayedUntil? && old(Statuses())[t].wake <= Now())
                     then Statuses()[t] == Runnable && t !in Waiting()
                     else
                       && Statuses()[t] == old(Statuses())[t] && (t in Waiting() <==> t in old(Waiting()))
                       && (t in Waiting() ==> Waiting()[t] == old(Waiting())[t])
      ensures suspendDepth == 0 ==>
                (yieldPending <==>
                   || old(yieldPending)
                   || exists t :: && ((t in old(Waiting()) && old(Waiting())[t] == PendingReady)
                                      || (t in old(Statuses()) && old(Statuses())[t].DelayedUntil?
                                          && old(Statuses())[t].wake <= Now()))
                                  && t in tcb && tcb[t].priority >= tcb[current.value].priority)
      ensures var due := Due(MakeReady(old(Statuses()), PendingOf(old(Waiting()))), Now());
              suspendDepth == 0 ==> (yieldPending <==>
                || old(yieldPending)
                || Preempts(PendingOf(old(Waiting())), tcb, tcb[current.value].priority)
                || Preempts(due, tcb, tcb[current.value].priority))
    {
      hide Listed, OkFrom, KernelState.Waiting, KernelState.Statuses, Due, RipenAll, MakeReady, PendingOf,
        Preempts;
      CurrentExists(View());
      ghost var m, w, now := Statuses(), Waiting(), Now() + pendedTicks;
      ResumingPreempts(m, w, now, tcb, tcb[current.value].priority);
      ResumingIsExact(m, w, now);
      alreadyYielded := false;
      suspendDepth := suspendDepth - 1;
      if suspendDepth == 0 {
        EndSuspension();
        if yieldPending {
          alreadyYielded := true;
        }
      }
    }

    /** Tick interrupts while the scheduler is suspended. */
    method PendTicks(interrupts: nat)
      requires Valid() && current.Some? && suspendDepth > 0
      modifies this`lists, this`log, this`container, this`topReadyPriority, this`nextUnblockTime
      modifies this`firstIsDelayed, this`epoch, this`numOfOverflows, this`tickCount, this`pendedTicks
      ensures Extends(old(log), log)
      ensures Valid() && Now() == old(Now()) && pendedTicks == old(pendedTicks) + interrupts
      ensures Statuses() == old(Statuses()) && Waiting() == old(Waiting())
    {
      hide Listed, Ok, KernelState.Waiting, KernelState.Statuses, RipenAll, Due, Preempts;
      for i := 0 to interrupts
        invariant Extends(old(log), log)
        invariant Valid() && Now() == old(Now()) && pendedTicks == old(pendedTicks) + i
        invariant Statuses() == old(Statuses()) && Waiting() == old(Waiting())
      {
        var _ := IncrementTick();
      }
    }

    /** The last suspension ends after any number of tick interrupts, with nobody pending. */
    method ResumeAfterTicks(interrupts: nat)
      requires Valid() && current.Some? && suspendDepth == 1 && PendingOf(Waiting()) == {}
      modifies this`suspendDepth, this`settled, this`lists, this`log, this`container, this`topReadyPriority
      modifies this`nextUnblockTime, this`firstIsDelayed, this`epoch, this`numOfOverflows, this`tickCount
      modifies this`pendedTicks, this`yieldPending
      ensures Extends(old(log), log) && current.value in tcb
      ensures Valid() && suspendDepth == 0 && pendedTicks == 0
      ensures Now() == old(Now() + pendedTicks) + interrupts
      ensures Statuses() == RipenAll(old(Statuses()), Now())
      ensures Waiting() == old(Waiting()) - Due(old(Statuses()), Now())
      ensures yieldPending <==>
                old(yieldPending) || Preempts(Due(old(Statuses()), Now()), tcb, tcb[current.value].priority)
    {
      hide Listed, Ok, Preempts, KernelState.Waiting, KernelState.Statuses, Due, RipenAll, PendingOf, MakeReady;
      PendTicks(interrupts);
      MakeReadyNone(Statuses());
      CurrentExists(View());
      PreemptsMore({}, tcb, tcb[current.value].priority, current.value);
      KernelRuns.ResumeWithNonePending(Abstract());
      var _ := ResumeAll();
    }

    /** vTaskDelay, with any number of tick interrupts while the scheduler is
        suspended. */
    method Delay(ticksToDelay: nat, interrupts: nat)
      requires Valid() && 0 < ticksToDelay < modulus && suspendDepth == 0 && CurrentIsReady()
      modifies this`suspendDepth, this`settled, this`lists, this`log, this`container, this`topReadyPriority
      modifies this`nextUnblockTime, this`firstIsDelayed, this`epoch, this`numOfOverflows, this`tickCount
      modifies this`pendedTicks, this`yieldPending, this`values
      ensures Extends(old(log), log)
      ensures Valid() && suspendDepth == 0
      ensures Now() + pendedTicks == old(Now() + pendedTicks) + interrupts && pendedTicks == 0
      ensures var m := old(Statuses())[current.value := DelayedUntil(old(Now()) + ticksToDelay)];
              && Statuses() == RipenAll(m, Now()) && Waiting() == old(Waiting()) - Due(m, Now())
              && current.value in tcb
              && (yieldPending <==> old(yieldPending) || Preempts(Due(m, Now()), tcb, tcb[current.value].priority))
      ensures SameEventValues(values, old(values))
    {
      hide Listed, Ok, KernelRuns.Changes, KernelState.Waiting, KernelState.Statuses, Due, RipenAll, PendingOf;
      SettledHasNonePending(View());
      SuspendAll();
      AddCurrentTaskToDelayedList(ticksToDelay, false);
      ResumeAfterTicks(interrupts);
    }

    /** vTaskDelayUntil, with any number of tick interrupts while the scheduler is
        suspended: the task sleeps until one period after its previous wake time,
        unless that is past. */
    method DelayUntil(previousWakeTime: nat, timeIncrement: nat, interrupts: nat) returns (nextWakeTime: nat)
      requires Valid() && suspendDepth == 0 && CurrentIsReady() && tickCount < modulus
      requires previousWakeTime < modulus && 0 < timeIncrement < modulus
      modifies this`suspendDepth, this`settled, this`lists, this`log, this`container, this`topReadyPriority
      modifies this`nextUnblockTime, this`firstIsDelayed, this`epoch, this`numOfOverflows, this`tickCount
      modifies this`pendedTicks, this`yieldPending, this`values
      ensures Extends(old(log), log)
      ensures Valid() && suspendDepth == 0
      ensures Now() + pendedTicks == old(Now() + pendedTicks) + interrupts && pendedTicks == 0
      ensures nextWakeTime == WrapAdd(previousWakeTime, timeIncrement, modulus)
      ensures var end := LastInstant(previousWakeTime, old(epoch), old(tickCount), modulus) + timeIncrement;
              var m := if end > old(Now()) then old(Statuses())[current.value := DelayedUntil(end)]
                else old(Statuses());
              && Statuses() == RipenAll(m, Now()) && Waiting() == old(Waiting()) - Due(m, Now())
              && current.value in tcb
              && (yieldPending <==> old(yieldPending) || Preempts(Due(m, Now()), tcb, tcb[current.value].priority))
      ensures SameEventValues(values, old(values))
    {
      hide Listed, Ok, KernelRuns.Changes, KernelState.Waiting, KernelState.Statuses, Due, RipenAll, PendingOf;
      DelayUntilIsExact(previousWakeTime, timeIncrement, epoch, tickCount, modulus);
      SettledHasNonePending(View());
      SuspendAll();
      nextWakeTime := WrapAdd(previousWakeTime, timeIncrement, modulus);
      if ShouldDelay(previousWakeTime, timeIncrement, tickCount, modulus) {
        AddCurrentTaskToDelayedList(WrapSub(nextWakeTime, tickCount, modulus), false);
      }
      ResumeAfterTicks(interrupts);
    }

    // ----- dispatch -----

    /** The scan of taskSELECT_HIGHEST_PRIORITY_TASK.  Its assertion, that the scan
        stops above the bottom, holds while some task is ready. */
    method HighestReadyPriority(ghost someReady: Task) returns (top: nat)
      requires Valid() && someReady in Statuses() && Statuses()[someReady] == Runnable
      ensures Topped(container, top) && ListOf(lists, Ready(top)).items != []
    {
      hide Sound, Logged, Clocked, OkFrom, Topped, KernelState.Waiting, KernelState.Statuses;
      RunnableIsReady(View(), tickCount + 1, someReady);
      OkIsTopped(View());
      top := topReadyPriority;
      while ListOf(lists, Ready(top)).items == []
        invariant Topped(container, top)
        decreases top
      {
        assert forall x :: x in container ==> container[x] != Ready(top) by {
          HeadIsIn(lists, container, values, Ready(top));
        }
        LowerTop(container, top, someReady);
        top := top - 1;
      }
    }

    /** listGET_OWNER_OF_NEXT_ENTRY on a ready list. */
    method NextReady(p: nat) returns (x: Item)
      requires Listed() && ListOf(lists, Ready(p)).items != []
      modifies this`lists, this`log
      ensures Listed() && x in container && container[x] == Ready(p)
      ensures var r := ListOf(old(lists), Ready(p));
              r.items != [] && r.index <= |r.items| && lists == old(lists)[Ready(p) := Next(r)]
                && x == Selected(Next(r))
      ensures log == old(log) + [Event(p, Select)]
    {
      hide Sound, Logged, Clocked, Next, Selected;
      NextKeepsSound(lists, container, values, Ready(p));
      NoteChange(lists, log, Ready(p), Select);
      lists, log := lists[Ready(p) := Next(ListOf(lists, Ready(p)))], log + [Event(p, Select)];
      x := Selected(ListOf(lists, Ready(p)));
    }

    /** taskSELECT_HIGHEST_PRIORITY_TASK */
    method SelectHighestPriorityTask(ghost someReady: Task)
      requires Valid() && someReady in Statuses() && Statuses()[someReady] == Runnable
      modifies this`current, this`lists, this`log, this`topReadyPriority
      ensures Valid() && Statuses() == old(Statuses()) && Waiting() == old(Waiting())
      ensures RunsMostUrgent()
      ensures var r := ListOf(old(lists), Ready(tcb[current.value].priority));
              r.items != [] && r.index <= |r.items|
                && lists == old(lists)[Ready(tcb[current.value].priority) := Next(r)]
              && StateItem(current.value) == Selected(Next(r))
      ensures log == old(log) + [Event(tcb[current.value].priority, Select)]
      ensures Abstract() == old(Abstract())
    {
      hide Listed, OkFrom, Topped, KernelState.Waiting, KernelState.Statuses, Next, Selected;
      ghost var s := View();
      var top := HighestReadyPriority(someReady);
      var x := NextReady(top);
      ReadyListsHoldTasks(s, tickCount + 1, x);
      SelectTop(s, tickCount + 1, x.task, top);
      current := Some(x.task);
      topReadyPriority := top;
    }

    /** vTaskSwitchContext */
    method SwitchContext(ghost someReady: Task)
      requires Valid() && someReady in Statuses() && Statuses()[someReady] == Runnable
      modifies this`current, this`lists, this`log, this`topReadyPriority, this`yieldPending
      ensures Valid() && Statuses() == old(Statuses()) && Waiting() == old(Waiting())
      ensures yieldPending == (suspendDepth > 0)
      ensures suspendDepth > 0 ==> current == old(current) && lists == old(lists) && log == old(log)
      ensures suspendDepth == 0 ==> RunsMostUrgent()
      ensures suspendDepth == 0 ==> log == old(log) + [Event(tcb[current.value].priority, Select)]
      ensures Abstract() == old(Abstract())
    {
      hide Sound, Logged, Clocked, OkFrom, KernelState.Waiting, KernelState.Statuses, RunsMostUrgent;
      if suspendDepth != 0 {
        yieldPending := true;
      } else {
        yieldPending := false;
        SelectHighestPriorityTask(someReady);
      }
    }

    // ----- fairness -----

    /** Between any two moments in the life of the scheduler a task that stays ready at a
        priority and is not selected is passed over fewer times than it had turns to
        wait, plus the arrivals that came while the index pointed at it; and fewer times
        than it had turns to wait, if it was ahead of the index. */
    twostate lemma ReadyTasksArePassedOverBoundedly(p: nat, t: Task)
      requires old(Valid()) && Valid() && old(log) <= log
      requires StateItem(t) in old(ListOf(lists, Ready(p))).items
      ensures var r, events, x := old(ListOf(lists, Ready(p))), log[|old(log)|..], StateItem(t);
              RoundRobin.Valid(r) && Plays(r, p, events) && Played(r, p, events) == ListOf(lists, Ready(p)) && (
                PassesOver(r, p, events, x) ==>
                  && x in ListOf(lists, Ready(p)).items
                  && Waits(r, x, ChangesTo(p, events))
                  && Selections(ChangesTo(p, events)) < Turns(r, x) + Delays(r, x, ChangesTo(p, events))
                  && (Ahead(r, x) ==> Selections(ChangesTo(p, events)) < Turns(r, x)))
    {
      HistoriesAreFair(old(lists), old(log), lists, log, p, StateItem(t));
    }

    // ----- event lists -----

    /** vListInsertEnd of a task's event item. */
    method FileEvent(t: Task, l: ListId, ghost low: nat)
      requires modulus > 1 && Listed() && OkFrom(View(), low)
      requires StateItem(t) in container && container[StateItem(t)] != Termination && EventItem(t) !in container
      requires l.EventList? || (l.PendingReady? && !settled)
      modifies this`lists, this`log, this`container
      ensures Extends(old(log), log)
      ensures Listed() && OkFrom(View(), low)
      ensures Statuses() == old(Statuses()) && Waiting() == old(Waiting())[t := l]
      ensures lists == old(lists)[l := WithLast(ListOf(old(lists), l), EventItem(t))]
    {
      hide Sound, Logged, Clocked, OkFrom, WithLast, KernelState.Waiting, KernelState.Statuses;
      OnlyTasksAreListed(View(), low, t);
      Wait(View(), low, t, l);
      ListInsertEnd(l, EventItem(t));
    }

    /** vListInsert of a task's event item. */
    method FileSortedEvent(t: Task, q: nat)
      requires Valid() && t in tcb && EventItem(t) !in container
      requires StateItem(t) in container && container[StateItem(t)] != Termination
      modifies this`lists, this`container
      ensures Valid() && Statuses() == old(Statuses()) && Waiting() == old(Waiting())[t := EventList(q)]
      ensures lists == old(lists)[EventList(q) := WithSorted(ListOf(old(lists), EventList(q)), EventItem(t), values)]
    {
      hide Sound, Logged, Clocked, OkFrom, WithSorted, KernelState.Waiting, KernelState.Statuses;
      ghost var s := View();
      ListInsert(EventList(q), EventItem(t));
      Wait(s, tickCount + 1, t, EventList(q));
    }

    /** vTaskPlaceOnEventList: the running task joins an event list in order of its
        event item's value, and sleeps. */
    method PlaceOnEventList(q: nat, ticksToWait: nat)
      requires Valid() && CurrentIsReady() && current.value !in Waiting() && 0 < ticksToWait < modulus
      modifies this`lists, this`log, this`container, this`values, this`nextUnblockTime
      ensures Extends(old(log), log)
      ensures Valid()
      ensures KernelRuns.Changes(old(Abstract()), Abstract(), current.value)
      ensures Statuses() == old(Statuses())[current.value :=
                if ticksToWait == modulus - 1 then Blocked else DelayedUntil(Now() + ticksToWait)]
      ensures Waiting() == old(Waiting())[current.value := EventList(q)]
      ensures ListOf(lists, EventList(q)) ==
                WithSorted(old(ListOf(lists, EventList(q))), EventItem(current.value), old(values))
      ensures var items, x := old(ListOf(lists, EventList(q)).items), EventItem(current.value);
              exists pos ::
                && 0 <= pos <= |items| && ListOf(lists, EventList(q)).items == items[..pos] + [x] + items[pos..]
                && (forall y :: y in items[..pos] ==> ValueOf(old(values), y) <= ValueOf(old(values), x))
                && (pos < |items| ==> ValueOf(old(values), x) < ValueOf(old(values), items[pos]))
      ensures forall p :: p != q ==> ListOf(lists, EventList(p)) == old(ListOf(lists, EventList(p)))
      ensures SameEventValues(values, old(values))
    {
      hide Listed, OkFrom, WithSorted, KernelState.Waiting, KernelState.Statuses, KernelRuns.Changes;
      ghost var k := Abstract();
      RunnableIsReady(View(), tickCount + 1, current.value);
      ghost var pos := SortedPlace(ListOf(lists, EventList(q)), EventItem(current.value), values);
      FileSortedEvent(current.value, q);
      AddCurrentTaskToDelayedList(ticksToWait, true);
      KernelRuns.OnlyChanges(k, Abstract(), current.value);
    }

    /** vTaskPlaceOnUnorderedEventList: the value says what the task waits for, and is
        marked so that no change of priority overwrites it. */
    method PlaceOnUnorderedEventList(q: nat, itemValue: nat, ticksToWait: nat)
      requires Valid() && CurrentIsReady() && current.value !in Waiting() && 0 < ticksToWait < modulus
      requires suspendDepth > 0 && itemValue < modulus
      modifies this`lists, this`log, this`container, this`values, this`nextUnblockTime
      ensures Extends(old(log), log)
      ensures Valid()
      ensures KernelRuns.Changes(old(Abstract()), Abstract(), current.value)
      ensures Statuses() == old(Statuses())[current.value :=
                if ticksToWait == modulus - 1 then Blocked else DelayedUntil(Now() + ticksToWait)]
      ensures Waiting() == old(Waiting())[current.value := EventList(q)]
      ensures ListOf(lists, EventList(q)) == WithLast(old(ListOf(lists, EventList(q))), EventItem(current.value))
      ensures forall p :: p != q ==> ListOf(lists, EventList(p)) == old(ListOf(lists, EventList(p)))
      ensures SameEventValues(values, old(values)[EventItem(current.value) := MarkedInUse(itemValue, modulus)])
    {
      hide Listed, MarkedInUse, OkFrom, WithLast, KernelState.Waiting, KernelState.Statuses, KernelRuns.Changes;
      ghost var k := Abstract();
      RunnableIsReady(View(), tickCount + 1, current.value);
      SetEventItemValue(current.value, MarkedInUse(itemValue, modulus));
      FileEvent(current.value, EventList(q), tickCount + 1);
      AddCurrentTaskToDelayedList(ticksToWait, true);
      KernelRuns.OnlyChanges(k, Abstract(), current.value);
    }

    /** The head of an event list leaves it, the first step of
        xTaskRemoveFromEventList. */
    method TakeHead(q: nat) returns (t: Task)
      requires Valid() && ListOf(lists, EventList(q)).items != []
      modifies this`lists, this`log, this`container
      ensures Extends(old(log), log)
      ensures Valid() && old(ListOf(lists, EventList(q)).items[0]) == EventItem(t)
      ensures OnlyTaken(lists, old(lists), EventList(q), EventItem(t))
      ensures t in tcb && t in old(Waiting()) && old(Waiting())[t] == EventList(q)
      ensures StateItem(t) in container && container[StateItem(t)] != Termination && EventItem(t) !in container
      ensures Statuses() == old(Statuses()) && Waiting() == old(Waiting()) - {t}
    {
      hide Sound, Logged, Clocked, OkFrom, Without, KernelState.Waiting, KernelState.Statuses;
      ghost var s := View();
      HeadIsIn(lists, container, values, EventList(q));
      var x := ListOf(lists, EventList(q)).items[0];
      EventListHoldsEvents(s, tickCount + 1, x);
      t := x.task;
      var _ := ListRemove(x);
      Unwait(s, tickCount + 1, t);
    }

    /** The middle of xTaskRemoveFromEventList: the task becomes ready, or, while the
        scheduler is suspended, pending. */
    method ReadyOrPend(t: Task)
      requires Valid() && t in tcb && t !in Waiting() && EventItem(t) !in container
      requires StateItem(t) in container && container[StateItem(t)] != Termination
      modifies this`lists, this`log, this`container, this`topReadyPriority
      ensures Extends(old(log), log)
      ensures Valid()
      ensures Statuses() == if suspendDepth == 0 then old(Statuses())[t := Runnable] else old(Statuses())
      ensures SameEventLists(lists, old(lists))
      ensures Waiting() == if suspendDepth == 0 then old(Waiting()) else old(Waiting())[t := PendingReady]
    {
      hide Listed, OkFrom, WithLast, KernelState.Waiting, KernelState.Statuses;
      if suspendDepth == 0 {
        MakeTaskReady(t, tickCount + 1);
      } else {
        FileEvent(t, PendingReady, tickCount + 1);
      }
    }

    /** The first waiter leaves an event list, and becomes ready or pending. */
    method UnblockHead(q: nat) returns (t: Task)
      requires Valid() && ListOf(lists, EventList(q)).items != []
      modifies this`lists, this`log, this`container, this`topReadyPriority
      ensures Extends(old(log), log)
      ensures Valid() && old(ListOf(lists, EventList(q)).items[0]) == EventItem(t)
      ensures OnlyTaken(lists, old(lists), EventList(q), EventItem(t))
      ensures t in tcb && t in old(Waiting()) && old(Waiting())[t] == EventList(q)
      ensures Statuses() == if suspendDepth == 0 then old(Statuses())[t := Runnable] else old(Statuses())
      ensures Waiting() == if suspendDepth == 0 then old(Waiting()) - {t} else old(Waiting())[t := PendingReady]
    {
      hide Listed, OkFrom, OnlyTaken, SameEventLists, KernelState.Waiting, KernelState.Statuses;
      ghost var w := Waiting();
      t := TakeHead(q);
      assert (w - {t})[t := PendingReady] == w[t := PendingReady];
      ghost var taken := lists;
      ReadyOrPend(t);
      StillOnlyTaken(lists, taken, old(lists), q, EventItem(t));
    }

    /** xTaskRemoveFromEventList */
    method RemoveFromEventList(q: nat) returns (preempts: bool)
      requires Valid() && current.Some? && ListOf(lists, EventList(q)).items != []
      modifies this`lists, this`log, this`container, this`topReadyPriority, this`yieldPending
      ensures Extends(old(log), log)
      ensures Valid() && current.value in tcb
      ensures KernelRuns.Changes(old(Abstract()), Abstract(), old(ListOf(lists, EventList(q)).items[0]).task)
      ensures OnlyTaken(lists, old(lists), EventList(q), old(ListOf(lists, EventList(q)).items[0]))
      ensures var t := old(ListOf(lists, EventList(q)).items[0]).task;
              && t in tcb && t in old(Waiting()) && old(Waiting())[t] == EventList(q)
              && Statuses() == (if suspendDepth == 0 then old(Statuses())[t := Runnable] else old(Statuses()))
              && Waiting() == (if suspendDepth == 0 then old(Waiting()) - {t} else old(Waiting())[t := PendingReady])
              && preempts == (tcb[t].priority > tcb[current.value].priority)
              && yieldPending == (old(yieldPending) || preempts)
    {
      hide Listed, Ok, OnlyTaken, KernelState.Waiting, KernelState.Statuses, KernelRuns.Changes;
      CurrentExists(View());
      ghost var k := Abstract();
      var t := UnblockHead(q);
      preempts := tcb[t].priority > tcb[current.value].priority;
      if preempts {
        yieldPending := true;
      }
      KernelRuns.OnlyChanges(k, Abstract(), t);
    }

    /** vTaskRemoveFromUnorderedEventList: the task is made ready at once, with the
        value that unblocked it, marked, in its event item. */
    method RemoveFromUnorderedEventList(t: Task, itemValue: nat)
      requires Valid() && current.Some? && suspendDepth > 0
      requires t in Waiting() && Waiting()[t].EventList? && itemValue < modulus
      modifies this`lists, this`log, this`container, this`values, this`topReadyPriority, this`yieldPending
      ensures Extends(old(log), log)
      ensures Valid() && current.value in tcb && t in tcb
      ensures KernelRuns.Changes(old(Abstract()), Abstract(), t)
      ensures EventItem(t) in ListOf(old(lists), old(Waiting())[t]).items
      ensures OnlyTaken(lists, old(lists), old(Waiting())[t], EventItem(t))
      ensures Statuses() == old(Statuses())[t := Runnable] && Waiting() == old(Waiting()) - {t}
      ensures values == old(values)[EventItem(t) := MarkedInUse(itemValue, modulus)]
      ensures yieldPending == (old(yieldPending) || tcb[t].priority > tcb[current.value].priority)
    {
      hide Listed, MarkedInUse, OnlyTaken, SameEventLists, OkFrom, WithLast, KernelState.Waiting, KernelState.Statuses,
        KernelRuns.Changes;
      ghost var k := Abstract();
      ghost var s := View();
      CurrentExists(s);
      WaitingIsListed(s, t);
      EventIsOnEventList(s, tickCount + 1, t);
      SetEventItemValue(t, MarkedInUse(itemValue, modulus));
      MakeTaskReady(t, tickCount + 1);
      if tcb[t].priority > tcb[current.value].priority {
        yieldPending := true;
      }
      KernelRuns.OnlyChanges(k, Abstract(), t);
    }

    // ----- the life of a task -----

    /** prvInitialiseTaskLists, and the initial values of the file's variables. */
    constructor (maxPriorities: nat, modulus: nat, initialTick: nat, overflowModulus: nat)
      requires maxPriorities > 0 && modulus > 1 && initialTick < modulus && overflowModulus > 1
      ensures Valid() && Statuses() == map[] && Waiting() == map[] && Now() == initialTick
      ensures suspendDepth == 0 && !running && current == None
    {
      this.maxPriorities, this.modulus := maxPriorities, modulus;
      this.initialTick, this.overflowModulus := initialTick, overflowModulus;
      tcb, lists, container, values, current := map[], map[], map[], map[], None;
      firstIsDelayed, tickCount, pendedTicks, nextUnblockTime := true, initialTick, 0, 0;
      topReadyPriority, suspendDepth, yieldPending := 0, 0, false;
      numberOfTasks, deletedWaitingCleanUp, running := 0, 0, false;
      epoch, numOfOverflows, settled, log := 0, 0, true, [];
    }

    /** The new task is counted, and its state item joins a ready list. */
    method EnterTask(t: Task, new_: TCB)
      requires Listed() && t !in tcb && StateItem(t) !in container
      modifies this`tcb, this`lists, this`log, this`container, this`topReadyPriority, this`numberOfTasks
      ensures Extends(old(log), log)
      ensures Listed() && tcb == old(tcb)[t := new_] && topReadyPriority == Max(old(topReadyPriority), new_.priority)
      ensures container == old(container)[StateItem(t) := Ready(new_.priority)]
    {
      hide Sound, Logged, Clocked, WithLast;
      numberOfTasks := numberOfTasks + 1;
      tcb := tcb[t := new_];
      AddTaskToReadyList(t);
    }

    /** prvAddNewTaskToReadyList */
    method CreateTask(t: Task, priority: nat)
      requires Valid() && t !in tcb && priority < maxPriorities
      modifies this`tcb, this`lists, this`log, this`container, this`topReadyPriority, this`numberOfTasks
      ensures Extends(old(log), log)
      ensures Valid()
      ensures Statuses() == old(Statuses())[t := Runnable] && Waiting() == old(Waiting())
      ensures tcb == old(tcb)[t := TCB(priority, priority, 0)]
    {
      hide Listed, OkFrom, Extends, KernelState.Waiting, KernelState.Statuses;
      ghost var s := View();
      AddTask(s, tickCount + 1, t, priority, Max(topReadyPriority, priority));
      EnterTask(t, TCB(priority, priority, 0));
      assert View() == Added(s, t, priority, topReadyPriority);
    }

    /** listSET_LIST_ITEM_VALUE of a task's event item. */
    method SetEventItemValue(t: Task, v: nat)
      requires Valid()
      modifies this`values
      ensures Valid() && Statuses() == old(Statuses()) && Waiting() == old(Waiting())
      ensures values == old(values)[EventItem(t) := v]
    {
      hide Sound, Logged, Clocked, OkFrom, KernelState.Waiting, KernelState.Statuses;
      EventIsNotDelayed(View(), tickCount + 1, t);
      SetEventValue(View(), tickCount + 1, t, v);
      SetItemValue(EventItem(t), v);
    }

    /** Before the scheduler runs, the last created task of the highest priority is
        the one to run first. */
    method ElectNewTask(t: Task)
      requires Valid() && t in tcb
      modifies this`current
      ensures Valid() && Statuses() == old(Statuses()) && Waiting() == old(Waiting())
      ensures old(current) == None ==> current == Some(t)
      ensures old(current).Some? ==> old(current).value in tcb
      ensures old(current).Some? ==>
                current == if !running && tcb[old(current).value].priority <= tcb[t].priority then Some(t)
                  else old(current)
    {
      hide Listed, OkFrom, KernelState.Waiting, KernelState.Statuses;
      CurrentExists(View());
      SetCurrent(View(), tickCount + 1, t);
      if current == None || (!running && tcb[current.value].priority <= tcb[t].priority) {
        current := Some(t);
      }
    }

    /** prvInitialiseNewTask and prvAddNewTaskToReadyList */
    method AddNewTask(t: Task, priority: nat)
      requires Valid() && t !in tcb && priority < maxPriorities
      modifies this`tcb, this`lists, this`log, this`container, this`values, this`current, this`topReadyPriority
      modifies this`numberOfTasks
      ensures Extends(old(log), log)
      ensures Valid()
      ensures KernelRuns.Changes(old(Abstract()), Abstract(), t)
      ensures Statuses() == old(Statuses())[t := Runnable] && Waiting() == old(Waiting())
      ensures tcb == old(tcb)[t := TCB(priority, priority, 0)]
              && values == old(values)[EventItem(t) := maxPriorities - priority]
      ensures old(current) == None ==> current == Some(t)
      ensures old(current).Some? ==> old(current).value in tcb
      ensures old(current).Some? ==>
                current == if !running && tcb[old(current).value].priority <= priority then Some(t) else old(current)
    {
      hide Listed, Ok, KernelState.Waiting, KernelState.Statuses, KernelRuns.Changes;
      ghost var k := Abstract();
      SetEventItemValue(t, maxPriorities - priority);
      CreateTask(t, priority);
      ElectNewTask(t);
      KernelRuns.OnlyChanges(k, Abstract(), t);
    }

    /** Both items of a task leave their lists, as vTaskDelete and vTaskSuspend do
        first. */
    method RemoveBothItems(t: Task, ghost low: nat)
      requires Listed() && OkFrom(View(), low)
      requires StateItem(t) in container && container[StateItem(t)] != Termination
      modifies this`lists, this`log, this`container
      ensures Extends(old(log), log)
      ensures Sound(lists, container, values) && Logged(lists, log)
      ensures container == old(container) - {StateItem(t), EventItem(t)}
      ensures ListOf(lists, Termination) == old(ListOf(lists, Termination))
    {
      hide Sound, Logged, Clocked, OkFrom, Without, KernelState.Waiting, KernelState.Statuses;
      ghost var was := container;
      if EventItem(t) in container {
        EventIsOnEventList(View(), low, t);
      }
      var _ := ListRemove(StateItem(t));
      if EventItem(t) in container {
        var _ := ListRemove(EventItem(t));
      }
      assert container == was - {StateItem(t), EventItem(t)};
    }

    /** A task and its items cease to exist. */
    method EraseTask(t: Task, ghost low: nat)
      requires Listed() && OkFrom(View(), low) && t in tcb
      requires StateItem(t) in container && container[StateItem(t)] != Termination
      modifies this`tcb, this`lists, this`log, this`container, this`numberOfTasks
      ensures Extends(old(log), log)
      ensures Listed() && tcb == old(tcb) - {t} && container == old(container) - {StateItem(t), EventItem(t)}
    {
      hide Sound, Logged, Clocked, OkFrom;
      OneFewer(tcb, t);
      RemoveBothItems(t, low);
      numberOfTasks := numberOfTasks - 1;
      tcb := tcb - {t};
    }

    /** The task leaves the abstract state too. */
    method DropTask(t: Task)
      requires Valid() && t in Statuses() && Statuses()[t] != Deleted && current != Some(t)
      modifies this`tcb, this`lists, this`log, this`container, this`numberOfTasks
      ensures Extends(old(log), log)
      ensures Valid()
      ensures Statuses() == old(Statuses()) - {t} && Waiting() == old(Waiting()) - {t} && tcb == old(tcb) - {t}
    {
      hide Listed, OkFrom, KernelState.Waiting, KernelState.Statuses;
      ghost var s := View();
      RunnableIsReady(s, tickCount + 1, t);
      KernelState.DropTask(s, tickCount + 1, t);
      EraseTask(t, tickCount + 1);
      assert View() == Dropped(s, t);
    }

    /** vTaskDelete of another task: it is gone at once. */
    method DeleteOther(t: Task)
      requires Valid() && t in Statuses() && Statuses()[t] != Deleted && current != Some(t)
      modifies this`tcb, this`lists, this`log, this`container, this`numberOfTasks, this`nextUnblockTime
      ensures Extends(old(log), log)
      ensures Valid()
      ensures KernelRuns.Changes(old(Abstract()), Abstract(), t)
      ensures Statuses() == old(Statuses()) - {t} && Waiting() == old(Waiting()) - {t} && tcb == old(tcb) - {t}
    {
      hide Listed, OkFrom, KernelState.Waiting, KernelState.Statuses, KernelRuns.Changes;
      ghost var k := Abstract();
      DropTask(t);
      ForgetNext(View(), tickCount + 1);
      ResetNextTaskUnblockTime(tickCount + 1);
      KernelRuns.OnlyChanges(k, Abstract(), t);
    }

    /** Both items leave their lists, and the state item goes to list l. */
    method RefileTask(t: Task, l: ListId)
      requires Valid() && t in Statuses() && Statuses()[t] != Deleted
      requires l == Suspended || l == Termination
      modifies this`lists, this`log, this`container
      ensures Extends(old(log), log)
      ensures Sound(lists, container, values) && Logged(lists, log)
      ensures |ListOf(lists, Termination).items| == deletedWaitingCleanUp + if l == Termination then 1 else 0
      ensures Ok(View()) && Statuses() == old(Statuses())[t := if l == Termination then Deleted else Blocked]
      ensures Waiting() == old(Waiting()) - {t}
      ensures StateItem(t) in container && container[StateItem(t)] == l
    {
      hide Sound, Logged, Clocked, OkFrom, WithLast, KernelState.Waiting, KernelState.Statuses;
      ghost var s := View();
      RunnableIsReady(s, tickCount + 1, t);
      Refile(s, tickCount + 1, t, l);
      RemoveBothItems(t, tickCount + 1);
      ListInsertEnd(l, StateItem(t));
      assert container == Refiled(s, t, l).container;
    }

    /** vTaskDelete of the running task: the idle task will free it. */
    method DeleteSelf()
      requires Valid() && CurrentIsReady() && suspendDepth == 0
      modifies this`lists, this`log, this`container, this`deletedWaitingCleanUp
      ensures Extends(old(log), log)
      ensures Valid()
      ensures KernelRuns.Changes(old(Abstract()), Abstract(), current.value)
      ensures Statuses() == old(Statuses())[current.value := Deleted]
      ensures Waiting() == old(Waiting()) - {current.value}
      ensures deletedWaitingCleanUp == old(deletedWaitingCleanUp) + 1
    {
      hide Sound, Logged, Clocked, OkFrom, KernelState.Waiting, KernelState.Statuses, KernelRuns.Changes;
      ghost var k := Abstract();
      RefileTask(current.value, Termination);
      deletedWaitingCleanUp := deletedWaitingCleanUp + 1;
      KernelRuns.OnlyChanges(k, Abstract(), current.value);
    }

    ghost predicate SomeoneIsReady()
      reads this
    {
      exists u :: u in Statuses() && Statuses()[u] == Runnable
    }

    /** The end of vTaskSuspend before the scheduler starts: the task that was to run
        first cannot, and another ready task is chosen, if there is one. */
    method ReplaceCurrent()
      requires Valid() && !running
      requires forall u :: u in Statuses() ==> Statuses()[u] == Runnable || Statuses()[u] == Blocked
      modifies this`current, this`lists, this`log, this`topReadyPriority, this`yieldPending
      ensures Valid() && Statuses() == old(Statuses()) && Waiting() == old(Waiting()) && container == old(container)
      ensures old(log) <= log
      ensures !SomeoneIsReady() ==> current == None && log == old(log) && yieldPending == old(yieldPending)
      ensures SomeoneIsReady() && suspendDepth > 0 ==> current == old(current) && log == old(log) && yieldPending
      ensures SomeoneIsReady() && suspendDepth == 0 ==> RunsMostUrgent() && !yieldPending
    {
      hide Sound, Logged, Clocked, OkFrom, KernelState.Waiting, KernelState.Statuses, RunsMostUrgent;
      NobodyIsReady();
      if |ListOf(lists, Suspended).items| == numberOfTasks {
        NoCurrent(View(), tickCount + 1);
        current := None;
      } else {
        ghost var u :| u in Statuses() && Statuses()[u] == Runnable;
        SwitchContext(u);
      }
    }

    lemma NobodyIsReady()
      requires Valid()
      requires forall u :: u in Statuses() ==> Statuses()[u] == Runnable || Statuses()[u] == Blocked
      ensures |ListOf(lists, Suspended).items| == numberOfTasks <==> !SomeoneIsReady()
    {
      hide Sound, Logged, Clocked;
      Partition.AllSuspended(View(), tickCount + 1, lists);
      forall u | u in tcb ensures StatusOf(View(), u) == Blocked <==> container[StateItem(u)] == Suspended {
        assert u in Statuses() && Statuses()[u] == StatusOf(View(), u);
      }
      assert !SomeoneIsReady() ==> forall u :: u in tcb ==> u in Statuses() && Statuses()[u] == Blocked;
    }

    /** The list work of vTaskSuspend. */
    method FileSuspended(t: Task)
      requires Valid() && t in Statuses() && Statuses()[t] != Deleted
      modifies this`lists, this`log, this`container, this`nextUnblockTime
      ensures Extends(old(log), log)
      ensures Valid()
      ensures Statuses() == old(Statuses())[t := Blocked] && Waiting() == old(Waiting()) - {t}
      ensures TaskIsSuspended(t)
    {
      hide Sound, Logged, Clocked, OkFrom, KernelState.Waiting, KernelState.Statuses;
      RefileTask(t, Suspended);
      if running {
        ForgetNext(View(), tickCount + 1);
        ResetNextTaskUnblockTime(tickCount + 1);
      }
      NotWaitingIsNotListed(View(), tickCount + 1, t);
    }

    /** vTaskSuspend.  Before the scheduler starts, suspending the task that was to run
        first leaves the choice to another ready task, or to whichever comes next. */
    method SuspendTask(t: Task)
      requires Valid() && t in Statuses() && Statuses()[t] != Deleted
      requires running && current == Some(t) ==> suspendDepth == 0
      requires !running ==> forall u :: u in Statuses() ==> Statuses()[u] == Runnable || Statuses()[u] == Blocked
      modifies this`lists, this`log, this`container, this`nextUnblockTime, this`current, this`topReadyPriority
      modifies this`yieldPending
      ensures Valid() && old(log) <= log
      ensures KernelRuns.Changes(old(Abstract()), Abstract(), t)
      ensures Statuses() == old(Statuses())[t := Blocked] && Waiting() == old(Waiting()) - {t}
      ensures TaskIsSuspended(t)
      ensures running || old(current) != Some(t) ==>
                current == old(current) && yieldPending == old(yieldPending) && Extends(old(log), log)
      ensures !running && old(current) == Some(t) && !SomeoneIsReady() ==> current == None
      ensures !running && old(current) == Some(t) && SomeoneIsReady() && suspendDepth > 0 ==>
                current == old(current) && yieldPending
      ensures !running && old(current) == Some(t) && SomeoneIsReady() && suspendDepth == 0 ==> RunsMostUrgent()
    {
      hide Listed, OkFrom, KernelState.Waiting, KernelState.Statuses, RunsMostUrgent, KernelRuns.Changes;
      ghost var k := Abstract();
      FileSuspended(t);
      if current == Some(t) && !running {
        ReplaceCurrent();
      }
      KernelRuns.OnlyChanges(k, Abstract(), t);
    }

    /** prvTaskIsTaskSuspended: on the suspended list, and not because it waits for
        an event without a time limit. */
    predicate TaskIsSuspended(t: Task)
      reads this
    {
      && StateItem(t) in container && container[StateItem(t)] == Suspended
      && EventItem(t) !in container
    }

    /** vTaskResume */
    method ResumeTask(t: Task) returns (yieldRequired: bool)
      requires Valid() && t in tcb && current.Some?
      modifies this`lists, this`log, this`container, this`topReadyPriority
      ensures Extends(old(log), log)
      ensures Valid() && current.value in tcb
      ensures KernelRuns.Changes(old(Abstract()), Abstract(), t)
      ensures t in old(Statuses())
      ensures t != current.value && old(Statuses())[t] == Blocked && t !in old(Waiting()) ==>
                Statuses() == old(Statuses())[t := Runnable]
      ensures t == current.value || old(Statuses())[t] != Blocked || t in old(Waiting()) ==>
                Statuses() == old(Statuses())
      ensures Waiting() == old(Waiting()) && tcb == old(tcb)
      ensures yieldRequired <==>
                && t != current.value && old(Statuses())[t] == Blocked && t !in old(Waiting())
                && tcb[t].priority >= tcb[current.value].priority
    {
      hide Listed, OkFrom, WithLast, KernelState.Waiting, KernelState.Statuses, KernelRuns.Changes;
      ghost var k := Abstract();
      CurrentExists(View());
      SuspendedIsBlocked(View(), tickCount + 1, t);
      yieldRequired := false;
      if t != current.value && TaskIsSuspended(t) {
        NotListedIsNotWaiting(View(), t);
        MakeTaskReady(t, tickCount + 1);
        yieldRequired := tcb[t].priority >= tcb[current.value].priority;
      }
      KernelRuns.OnlyChanges(k, Abstract(), t);
    }

    /** xTaskResumeFromISR: while the scheduler is suspended the task is only
        noted as pending. */
    method ResumeTaskFromISR(t: Task) returns (yieldRequired: bool)
      requires Valid() && t in tcb && current.Some?
      modifies this`lists, this`log, this`container, this`topReadyPriority
      ensures Extends(old(log), log)
      ensures Valid() && current.value in tcb
      ensures KernelRuns.Changes(old(Abstract()), Abstract(), t)
      ensures t in old(Statuses())
      ensures old(Statuses())[t] == Blocked && t !in old(Waiting()) ==>
                if suspendDepth == 0 then Statuses() == old(Statuses())[t := Runnable] && Waiting() == old(Waiting())
                else Statuses() == old(Statuses()) && Waiting() == old(Waiting())[t := PendingReady]
      ensures old(Statuses())[t] != Blocked || t in old(Waiting()) ==>
                Statuses() == old(Statuses()) && Waiting() == old(Waiting())
      ensures yieldRequired <==>
                && old(Statuses())[t] == Blocked && t !in old(Waiting()) && suspendDepth == 0
                && tcb[t].priority >= tcb[current.value].priority
    {
      hide Listed, OkFrom, WithLast, KernelState.Waiting, KernelState.Statuses, KernelRuns.Changes;
      ghost var k := Abstract();
      CurrentExists(View());
      SuspendedIsBlocked(View(), tickCount + 1, t);
      yieldRequired := false;
      if TaskIsSuspended(t) {
        if suspendDepth == 0 {
          yieldRequired := tcb[t].priority >= tcb[current.value].priority;
          NotListedIsNotWaiting(View(), t);
          MakeTaskReady(t, tickCount + 1);
        } else {
          FileEvent(t, PendingReady, tickCount + 1);
        }
      }
      KernelRuns.OnlyChanges(k, Abstract(), t);
    }

    /** The head of the termination list leaves it, and its control block is freed. */
    method EraseDeletedHead() returns (t: Task)
      requires Listed() && Ok(View()) && deletedWaitingCleanUp > 0
      modifies this`tcb, this`lists, this`log, this`container, this`numberOfTasks, this`deletedWaitingCleanUp
      ensures Extends(old(log), log)
      ensures Listed() && deletedWaitingCleanUp == old(deletedWaitingCleanUp) - 1
      ensures t in old(tcb) && StateItem(t) in old(container) && old(container[StateItem(t)]) == Termination
      ensures tcb == old(tcb) - {t} && container == old(container) - {StateItem(t)}
    {
      hide Sound, Logged, Clocked, OkFrom, Without, KernelState.Waiting, KernelState.Statuses;
      HeadIsIn(lists, container, values, Termination);
      var x := ListOf(lists, Termination).items[0];
      TerminatedIsDeleted(View(), x);
      t := x.task;
      var _ := ListRemove(x);
      OneFewer(tcb, t);
      tcb := tcb - {t};
      numberOfTasks, deletedWaitingCleanUp := numberOfTasks - 1, deletedWaitingCleanUp - 1;
    }

    /** One turn of prvCheckTasksWaitingTermination. */
    method FreeDeletedHead() returns (t: Task)
      requires Valid() && deletedWaitingCleanUp > 0
      requires current.Some? ==> current.value in Statuses() && Statuses()[current.value] != Deleted
      modifies this`tcb, this`lists, this`log, this`container, this`numberOfTasks, this`deletedWaitingCleanUp
      ensures Extends(old(log), log)
      ensures Valid() && t in old(Statuses()) && old(Statuses())[t] == Deleted
      ensures Statuses() == old(Statuses()) - {t} && Waiting() == old(Waiting()) && tcb == old(tcb) - {t}
      ensures deletedWaitingCleanUp == old(deletedWaitingCleanUp) - 1
    {
      hide Listed, OkFrom, Extends, KernelState.Waiting, KernelState.Statuses;
      ghost var s := View();
      t := EraseDeletedHead();
      FreeDeleted(s, View(), t);
    }

    /** prvCheckTasksWaitingTermination: the idle task frees every deleted task. */
    method CheckTasksWaitingTermination()
      requires Valid() && CurrentIsReady()
      modifies this`tcb, this`lists, this`log, this`container, this`numberOfTasks, this`deletedWaitingCleanUp
      ensures Extends(old(log), log)
      ensures Valid() && deletedWaitingCleanUp == 0
      ensures Statuses() == Undeleted(old(Statuses())) && Waiting() == old(Waiting())
      ensures forall t :: t in tcb ==> t in old(tcb) && tcb[t] == old(tcb)[t]
    {
      hide Listed, Ok, KernelState.Waiting, KernelState.Statuses, Undeleted;
      ghost var m := Statuses();
      while deletedWaitingCleanUp > 0
        invariant Extends(old(log), log)
        invariant Valid() && current == old(current) && CurrentIsReady() && Waiting() == old(Waiting())
        invariant Undeleted(Statuses()) == Undeleted(m)
        invariant forall t :: t in tcb ==> t in old(tcb) && tcb[t] == old(tcb)[t]
      {
        ghost var before := Statuses();
        var t := FreeDeletedHead();
        UndeletedWithout(before, t);
      }
      NoneDeleted();
    }

    lemma NoneDeleted()
      requires Valid() && deletedWaitingCleanUp == 0
      ensures Undeleted(Statuses()) == Statuses()
    {
      hide Sound, Logged, Clocked, OkFrom, KernelState.Statuses;
      HeadIsIn(lists, container, values, Termination);
      AllUndeleted(View());
    }

    /** vTaskStartScheduler, once the idle and timer tasks exist. */
    method StartScheduler()
      requires Valid() && !running && current.Some? && suspendDepth == 0
      requires NoneDelayed(Statuses())
      modifies this`running, this`nextUnblockTime, this`tickCount
      ensures Valid() && running && tickCount == initialTick && nextUnblockTime == modulus - 1
      ensures old(epoch) == 0 ==> Now() == initialTick
      ensures Statuses() == old(Statuses()) && Waiting() == old(Waiting())
    {
      hide Sound, Logged, Clocked, OkFrom, KernelState.Waiting, KernelState.Statuses;
      StatusesWithoutDelays(View(), initialTick);
      nextUnblockTime := modulus - 1;
      running := true;
      tickCount := initialTick;
    }

    // ----- priorities -----

    /** A ready task changes priority, and with it its ready list. */
    method ChangeReadyPriority(t: Task, new_: TCB)
      requires Valid() && t in tcb && new_.priority < maxPriorities && new_.basePriority < maxPriorities
      requires StateItem(t) in container && container[StateItem(t)].Ready?
      modifies this`tcb, this`lists, this`log, this`container, this`topReadyPriority
      ensures Extends(old(log), log)
      ensures Valid() && tcb == old(tcb)[t := new_]
      ensures Statuses() == old(Statuses()) && Waiting() == old(Waiting())
    {
      hide Sound, Logged, Clocked, OkFrom, Without, WithLast, KernelState.Waiting, KernelState.Statuses;
      ghost var s := View();
      Reprioritise(s, tickCount + 1, t, new_, Max(topReadyPriority, new_.priority));
      tcb := tcb[t := new_];
      MoveToReadyList(t);
      assert View() == Reprioritised(s, t, new_, topReadyPriority);
    }

    /** The task's priority changes. */
    method ChangePriority(t: Task, new_: TCB)
      requires Valid() && t in tcb && new_.priority < maxPriorities && new_.basePriority < maxPriorities
      modifies this`tcb, this`lists, this`log, this`container, this`topReadyPriority
      ensures Extends(old(log), log)
      ensures Valid() && tcb == old(tcb)[t := new_]
      ensures Statuses() == old(Statuses()) && Waiting() == old(Waiting())
    {
      hide Sound, Logged, Clocked, OkFrom, KernelState.Waiting, KernelState.Statuses;
      EveryTaskHasStatus(View());
      RunnableIsReady(View(), tickCount + 1, t);
      if container[StateItem(t)] == Ready(tcb[t].priority) {
        ChangeReadyPriority(t, new_);
      } else {
        Reprioritise(View(), tickCount + 1, t, new_, topReadyPriority);
        tcb := tcb[t := new_];
      }
    }

    /** The event item of t follows its priority, unless its value is in use for
        something else. */
    method UpdateEventItem(t: Task, priority: nat)
      requires Valid() && priority < maxPriorities
      modifies this`values
      ensures Valid() && Statuses() == old(Statuses()) && Waiting() == old(Waiting())
      ensures values == if 2 * ValueOf(old(values), EventItem(t)) < modulus
              then old(values)[EventItem(t) := maxPriorities - priority] else old(values)
    {
      hide Listed, OkFrom, KernelState.Waiting, KernelState.Statuses;
      if !InUse(ValueOf(values, EventItem(t)), modulus) {
        SetEventItemValue(t, maxPriorities - priority);
      }
    }

    method SetMutexesHeld(t: Task, held: nat)
      requires Valid() && t in tcb
      modifies this`tcb
      ensures Valid() && Statuses() == old(Statuses()) && Waiting() == old(Waiting())
      ensures tcb == old(tcb)[t := old(tcb)[t].(mutexesHeld := held)]
    {
      hide Sound, Logged, Clocked, OkFrom, KernelState.Waiting, KernelState.Statuses;
      RecordMutexes(View(), tickCount + 1, t, held);
      tcb := tcb[t := tcb[t].(mutexesHeld := held)];
    }

    /** pvTaskIncrementMutexHeldCount */
    method IncrementMutexHeldCount() returns (holder: Option<Task>)
      requires Valid()
      modifies this`tcb
      ensures Valid() && Statuses() == old(Statuses()) && Waiting() == old(Waiting())
      ensures holder == current && (current.Some? ==> current.value in old(tcb))
      ensures current.None? ==> tcb == old(tcb)
      ensures current.Some? ==>
                tcb == old(tcb)[current.value :=
                  old(tcb)[current.value].(mutexesHeld := old(tcb)[current.value].mutexesHeld + 1)]
      ensures Abstract() == old(Abstract())
    {
      hide Listed, OkFrom, KernelState.Waiting, KernelState.Statuses;
      CurrentExists(View());
      if current.Some? {
        SetMutexesHeld(current.value, tcb[current.value].mutexesHeld + 1);
      }
      holder := current;
    }

    /** xTaskPriorityInherit */
    method PriorityInherit(holder: Option<Task>) returns (occurred: bool)
      requires Valid() && current.Some? && (holder.Some? ==> holder.value in tcb)
      modifies this`tcb, this`lists, this`log, this`container, this`values, this`topReadyPriority
      ensures Extends(old(log), log)
      ensures Valid() && Statuses() == old(Statuses()) && Waiting() == old(Waiting())
      ensures current.value in old(tcb)
      ensures old(tcb)[current.value].priority < maxPriorities
      ensures holder.None? ==> tcb == old(tcb) && values == old(values) && !occurred
      ensures holder.Some? && old(tcb)[holder.value].priority < old(tcb)[current.value].priority ==>
                && tcb == old(tcb)[holder.value :=
                     TCB(old(tcb)[current.value].priority, old(tcb)[holder.value].basePriority,
                         old(tcb)[holder.value].mutexesHeld)]
                && values == if 2 * ValueOf(old(values), EventItem(holder.value)) < modulus
                   then old(values)[EventItem(holder.value) := maxPriorities - old(tcb)[current.value].priority]
                   else old(values)
      ensures holder.Some? && old(tcb)[holder.value].priority >= old(tcb)[current.value].priority ==>
                tcb == old(tcb) && values == old(values)
      ensures holder.Some? ==>
                && tcb[holder.value] == Inherit(old(tcb)[holder.value], old(tcb)[current.value].priority)
                && occurred == InheritanceOccurred(old(tcb)[holder.value], old(tcb)[current.value].priority)
      ensures holder.Some? ==>
                (occurred <==>
                   || old(tcb)[holder.value].priority < old(tcb)[current.value].priority
                   || old(tcb)[holder.value].basePriority < old(tcb)[current.value].priority)
      ensures Abstract() == old(Abstract())
    {
      hide Listed, Ok, Extends, KernelState.Waiting, KernelState.Statuses;
      CurrentExists(View());
      NothingHappens(log);
      PrioritiesBounded(View());
      occurred := false;
      if holder.Some? {
        var t, mine := holder.value, tcb[current.value].priority;
        if tcb[t].priority < mine {
          UpdateEventItem(t, mine);
          ChangePriority(t, tcb[t].(priority := mine));
          occurred := true;
        } else if tcb[t].basePriority < mine {
          occurred := true;
        }
      }
    }

    /** xTaskPriorityDisinherit */
    method PriorityDisinherit(holder: Option<Task>) returns (yieldRequired: bool)
      requires Valid() && (holder.Some? ==> holder == current && CurrentIsReady())
      requires holder.Some? ==> holder.value in tcb && tcb[holder.value].mutexesHeld > 0
      modifies this`tcb, this`lists, this`log, this`container, this`values, this`topReadyPriority
      ensures Extends(old(log), log)
      ensures Valid() && Statuses() == old(Statuses()) && Waiting() == old(Waiting())
      ensures holder.None? ==> tcb == old(tcb) && values == old(values) && !yieldRequired
      ensures holder.Some? ==> holder.value in tcb && tcb == old(tcb)[holder.value := tcb[holder.value]]
      ensures holder.Some? ==> tcb[holder.value] == Disinherit(old(tcb)[holder.value])
      ensures holder.Some? ==>
                && tcb[holder.value].basePriority == old(tcb)[holder.value].basePriority
                && tcb[holder.value].mutexesHeld == old(tcb)[holder.value].mutexesHeld - 1
                && tcb[holder.value].priority < maxPriorities
      ensures holder.Some? && old(tcb)[holder.value].mutexesHeld == 1 ==>
                tcb[holder.value].priority == old(tcb)[holder.value].basePriority
      ensures holder.Some? && old(tcb)[holder.value].mutexesHeld > 1 ==>
                tcb[holder.value].priority == old(tcb)[holder.value].priority
      ensures holder.Some? ==>
                if old(tcb)[holder.value].mutexesHeld == 1
                   && old(tcb)[holder.value].priority != old(tcb)[holder.value].basePriority
                then yieldRequired && values ==
                     old(values)[EventItem(holder.value) := maxPriorities - old(tcb)[holder.value].basePriority]
                else !yieldRequired && values == old(values)
      ensures Abstract() == old(Abstract())
    {
      hide Listed, OkFrom, KernelState.Waiting, KernelState.Statuses;
      yieldRequired := false;
      if holder.Some? {
        var t := holder.value;
        PrioritiesBounded(View());
        var given := tcb[t].(mutexesHeld := tcb[t].mutexesHeld - 1);
        if given.priority != given.basePriority && given.mutexesHeld == 0 {
          ChangePriority(t, given.(priority := given.basePriority));
          SetEventItemValue(t, maxPriorities - given.basePriority);
          yieldRequired := true;
        } else {
          SetMutexesHeld(t, given.mutexesHeld);
        }
      }
    }

    /** vTaskPriorityDisinheritAfterTimeout */
    method PriorityDisinheritAfterTimeout(holder: Option<Task>, highestWaiting: nat)
      requires Valid() && highestWaiting < maxPriorities
      requires holder.Some? ==> holder.value in tcb && tcb[holder.value].mutexesHeld > 0
      modifies this`tcb, this`lists, this`log, this`container, this`values, this`topReadyPriority
      ensures Extends(old(log), log)
      ensures Valid() && Statuses() == old(Statuses()) && Waiting() == old(Waiting())
      ensures holder.None? ==> tcb == old(tcb) && values == old(values)
      ensures holder.Some? ==> holder.value in tcb && tcb[holder.value].priority < maxPriorities
      ensures holder.Some? ==>
                && tcb == old(tcb)[holder.value := old(tcb)[holder.value].(priority := tcb[holder.value].priority)]
                && tcb[holder.value] == DisinheritAfterTimeout(old(tcb)[holder.value], highestWaiting)
      ensures holder.Some? && old(tcb)[holder.value].mutexesHeld == 1 ==>
                && tcb[holder.value].priority >= highestWaiting
                && tcb[holder.value].priority >= old(tcb)[holder.value].basePriority
                && (tcb[holder.value].priority == highestWaiting
                    || tcb[holder.value].priority == old(tcb)[holder.value].basePriority)
      ensures holder.Some? && old(tcb)[holder.value].mutexesHeld > 1 ==> tcb == old(tcb)
      ensures holder.Some? ==>
                values == if tcb[holder.value].priority != old(tcb)[holder.value].priority
                             && 2 * ValueOf(old(values), EventItem(holder.value)) < modulus
                          then old(values)[EventItem(holder.value) := maxPriorities - tcb[holder.value].priority]
                          else old(values)
      ensures Abstract() == old(Abstract())
    {
      hide Listed, OkFrom, KernelState.Waiting, KernelState.Statuses;
      if holder.Some? {
        var t := holder.value;
        PrioritiesBounded(View());
        var priorityToUse := if tcb[t].basePriority < highestWaiting then highestWaiting else tcb[t].basePriority;
        if tcb[t].priority != priorityToUse && tcb[t].mutexesHeld == 1 {
          ChangePriority(t, tcb[t].(priority := priorityToUse));
          UpdateEventItem(t, priorityToUse);
        }
      }
    }

    /** vTaskPrioritySet: an inherited priority is kept, the base priority is not.  A
        yield is asked for when another task rises to the running task, or when the
        running task itself is lowered. */
    method PrioritySet(t: Task, newPriority: nat) returns (yieldRequired: bool)
      requires Valid() && t in tcb && newPriority < maxPriorities && current.Some?
      modifies this`tcb, this`lists, this`log, this`container, this`values, this`topReadyPriority
      ensures Extends(old(log), log)
      ensures Valid() && Statuses() == old(Statuses()) && Waiting() == old(Waiting())
      ensures tcb == old(tcb)[t := TCB(
                if old(tcb)[t].basePriority == old(tcb)[t].priority then newPriority else old(tcb)[t].priority,
                newPriority, old(tcb)[t].mutexesHeld)]
      ensures values == if newPriority != old(tcb)[t].basePriority && 2 * ValueOf(old(values), EventItem(t)) < modulus
                        then old(values)[EventItem(t) := maxPriorities - newPriority] else old(values)
      ensures current.value in old(tcb)
      ensures yieldRequired <==>
                if t == current.value then newPriority < old(tcb)[t].basePriority
                else old(tcb)[t].basePriority < newPriority && old(tcb)[current.value].priority <= newPriority
      ensures Abstract() == old(Abstract())
    {
      hide Listed, OkFrom, KernelState.Waiting, KernelState.Statuses;
      CurrentExists(View());
      PrioritiesBounded(View());
      yieldRequired := false;
      if tcb[t].basePriority != newPriority {
        if newPriority > tcb[t].basePriority {
          if t != current.value && newPriority >= tcb[current.value].priority {
            yieldRequired := true;
          }
        } else if t == current.value {
          yieldRequired := true;
        }
        var priority := if tcb[t].basePriority == tcb[t].priority then newPriority else tcb[t].priority;
        UpdateEventItem(t, newPriority);
        ChangePriority(t, TCB(priority, newPriority, tcb[t].mutexesHeld));
      }
    }
  }
}

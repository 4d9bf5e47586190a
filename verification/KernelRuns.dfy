/** The scheduler as an abstract machine over absolute time, and what holds of
    delays over its whole runs. */
module KernelRuns {
  import opened KernelLists
  import opened KernelState
  import opened Wrappers

  datatype Machine = Machine(
    statuses: map<Task, Status>, waiting: map<Task, ListId>, now: nat, pended: nat, depth: nat)

  /** One tick interrupt: counted for later while the scheduler is suspended. */
  function AfterTick(k: Machine): Machine {
    if k.depth > 0 then k.(pended := k.pended + 1)
    else k.(now := k.now + 1,
            statuses := RipenAll(k.statuses, k.now + 1),
            waiting := k.waiting - Due(k.statuses, k.now + 1))
  }

  function AfterSuspendAll(k: Machine): Machine {
    k.(depth := k.depth + 1)
  }

  /** Leaving the last suspension readies the pending tasks and replays the ticks. */
  function AfterResumeAll(k: Machine): Machine
    requires k.depth > 0
  {
    if k.depth > 1 then k.(depth := k.depth - 1)
    else
      var ready := MakeReady(k.statuses, PendingOf(k.waiting));
      Machine(RipenAll(ready, k.now + k.pended),
              k.waiting - PendingOf(k.waiting) - Due(ready, k.now + k.pended),
              k.now + k.pended, 0, 0)
  }

  /** With nobody pending, the end of a suspension only replays the ticks. */
  lemma ResumeWithNonePending(k: Machine)
    requires k.depth == 1 && PendingOf(k.waiting) == {}
    ensures AfterResumeAll(k).statuses == RipenAll(k.statuses, k.now + k.pended)
    ensures AfterResumeAll(k).waiting == k.waiting - Due(k.statuses, k.now + k.pended)
  {
    MakeReadyNone(k.statuses);
    assert k.waiting - {} == k.waiting;
  }

  /** What can happen to a machine: time, suspension, or anything whatever that the
      kernel does to a single task. */
  datatype Step =
    | Tick
    | SuspendAll
    | ResumeAll
    | Change(task: Task, status: Option<Status>, list: Option<ListId>)

  ghost predicate Enabled(k: Machine, s: Step) {
    s.ResumeAll? ==> k.depth > 0
  }

  function Apply(k: Machine, s: Step): Machine
    requires s.ResumeAll? ==> k.depth > 0
  {
    match s
    case Tick => AfterTick(k)
    case SuspendAll => AfterSuspendAll(k)
    case ResumeAll => AfterResumeAll(k)
    case Change(t, status, list) =>
      k.(statuses := if status.Some? then k.statuses[t := status.value] else k.statuses - {t},
         waiting := if list.Some? then k.waiting[t := list.value] else k.waiting - {t})
  }

  /** The step by which task t alone comes to be as it is in k. */
  function ChangeTo(k: Machine, t: Task): Step {
    Change(t, if t in k.statuses then Some(k.statuses[t]) else None,
              if t in k.waiting then Some(k.waiting[t]) else None)
  }

  /** From k to k' is one step, that of a change to task t. */
  ghost predicate Changes(k: Machine, k': Machine, t: Task) {
    k' == Apply(k, ChangeTo(k', t))
  }

  lemma OnlyChanges(k: Machine, k': Machine, t: Task)
    requires k'.now == k.now && k'.pended == k.pended && k'.depth == k.depth
    requires forall u :: u != t ==>
               && (u in k'.statuses <==> u in k.statuses) && (u in k.statuses ==> k'.statuses[u] == k.statuses[u])
               && (u in k'.waiting <==> u in k.waiting) && (u in k.waiting ==> k'.waiting[u] == k.waiting[u])
    ensures Changes(k, k', t)
  {
  }

  ghost predicate IsRun(k: Machine, run: seq<Step>)
    decreases |run|
  {
    run == [] || (Enabled(k, run[0]) && IsRun(Apply(k, run[0]), run[1..]))
  }

  ghost function Final(k: Machine, run: seq<Step>): Machine
    requires IsRun(k, run)
    decreases |run|
  {
    if run == [] then k else Final(Apply(k, run[0]), run[1..])
  }

  function Interrupts(run: seq<Step>): nat {
    if run == [] then 0 else (if run[0].Tick? then 1 else 0) + Interrupts(run[1..])
  }

  /** No tick is lost: over any run, the tick count and the pended ticks together
      grow by exactly the number of tick interrupts. */
  lemma {:induction false} TicksAreConserved(k: Machine, run: seq<Step>)
    requires IsRun(k, run)
    ensures Final(k, run).now + Final(k, run).pended == k.now + k.pended + Interrupts(run)
    ensures k.now <= Final(k, run).now
    decreases |run|
  {
    if run != [] {
      TicksAreConserved(Apply(k, run[0]), run[1..]);
    }
  }

  ghost predicate LeavesAlone(run: seq<Step>, t: Task) {
    forall i :: 0 <= i < |run| ==> !(run[i].Change? && run[i].task == t)
  }

  /** A task that sleeps until w, whether or not it also waits for an event, is ready
      exactly when the tick count has reached w, and off the event list from then on: in
      every run that does nothing else to it, across any number of wraps and suspensions. */
  lemma {:induction false} WakesExactlyOnTime(k: Machine, run: seq<Step>, t: Task, w: nat)
    requires IsRun(k, run) && LeavesAlone(run, t)
    requires t in k.statuses && k.now < w && k.statuses[t] == DelayedUntil(w)
    requires t in k.waiting ==> k.waiting[t] != PendingReady
    ensures var k' := Final(k, run);
            && t in k'.statuses && k'.statuses[t] == (if k'.now < w then DelayedUntil(w) else Runnable)
            && (t in k'.waiting <==> t in k.waiting && k'.now < w)
            && (t in k'.waiting ==> k'.waiting[t] == k.waiting[t])
    decreases |run|
  {
    if run != [] {
      var k1 := Apply(k, run[0]);
      assert !(run[0].Change? && run[0].task == t);
      assert LeavesAlone(run[1..], t) by {
        assert forall i :: 0 <= i < |run[1..]| ==> run[1..][i] == run[i+1];
      }
      assert t in k1.statuses && (t in k1.waiting ==> t in k.waiting && k1.waiting[t] == k.waiting[t]);
      if k1.now < w {
        WakesExactlyOnTime(k1, run[1..], t, w);
      } else {
        StaysRunnable(k1, run[1..], t);
        TicksAreConserved(k1, run[1..]);
      }
    }
  }

  lemma {:induction false} StaysRunnable(k: Machine, run: seq<Step>, t: Task)
    requires IsRun(k, run) && LeavesAlone(run, t)
    requires t in k.statuses && k.statuses[t] == Runnable
    ensures t in Final(k, run).statuses && Final(k, run).statuses[t] == Runnable
    ensures t !in k.waiting ==> t !in Final(k, run).waiting
    decreases |run|
  {
    if run != [] {
      assert !(run[0].Change? && run[0].task == t);
      assert LeavesAlone(run[1..], t) by {
        assert forall i :: 0 <= i < |run[1..]| ==> run[1..][i] == run[i+1];
      }
      StaysRunnable(Apply(k, run[0]), run[1..], t);
    }
  }
  /** A task that has been readied while the scheduler was suspended runs as soon as the
      last suspension has ended, and waits for nothing more. */
  lemma {:induction false} PendingTasksRun(k: Machine, run: seq<Step>, t: Task)
    requires IsRun(k, run) && LeavesAlone(run, t) && k.depth > 0 && Final(k, run).depth == 0
    requires t in k.statuses && t in k.waiting && k.waiting[t] == PendingReady
    ensures var k' := Final(k, run);
            t in k'.statuses && k'.statuses[t] == Runnable && t !in k'.waiting
    decreases |run|
  {
    var k1 := Apply(k, run[0]);
    assert !(run[0].Change? && run[0].task == t);
    assert LeavesAlone(run[1..], t) by {
      assert forall i :: 0 <= i < |run[1..]| ==> run[1..][i] == run[i+1];
    }
    if k1.depth > 0 {
      PendingTasksRun(k1, run[1..], t);
    } else {
      StaysRunnable(k1, run[1..], t);
    }
  }

  /** A task that is blocked, and not pending, stays so: neither time nor the end of a
      suspension wakes it. */
  lemma {:induction false} StaysBlocked(k: Machine, run: seq<Step>, t: Task)
    requires IsRun(k, run) && LeavesAlone(run, t) && t in k.statuses && k.statuses[t] == Blocked
    requires t in k.waiting ==> k.waiting[t] != PendingReady
    ensures var k' := Final(k, run);
            && t in k'.statuses && k'.statuses[t] == Blocked && (t in k'.waiting <==> t in k.waiting)
            && (t in k'.waiting ==> k'.waiting[t] == k.waiting[t])
    decreases |run|
  {
    if run != [] {
      assert !(run[0].Change? && run[0].task == t);
      assert LeavesAlone(run[1..], t) by {
        assert forall i :: 0 <= i < |run[1..]| ==> run[1..][i] == run[i+1];
      }
      StaysBlocked(Apply(k, run[0]), run[1..], t);
    }
  }
}

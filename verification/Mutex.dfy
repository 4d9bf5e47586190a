/** queue.c and tasks.c: mutexes, and the priority inheritance between the tasks
    that hold them and the tasks that wait for them. */
module Mutex {
  import opened Inheritance
  import opened RoundRobin
  import opened Wrappers

  type Task = nat
  type MutexId = nat

  /** The fields of a mutex; the waiters are in the order of the event list. */
  datatype Mutex = Mutex(
    recursive: bool, count: nat, holder: Option<Task>, recursiveCalls: nat, waiters: seq<Task>)

  /** Where a task is.  It contends from when it calls xQueueSemaphoreTake until the
      call returns or it blocks, and gives up once its time is over and it is about
      to undo the inheritance it caused.  The flag is xInheritanceOccurred. */
  datatype Place =
    | Running
    | Sleeping
    | Contending(mutex: MutexId, inherited: bool)
    | Blocked(mutex: MutexId, inherited: bool)
    | GivingUp(mutex: MutexId)

  datatype System = System(
    maxPriorities: nat, tasks: map<Task, TCB>, places: map<Task, Place>, mutexes: map<MutexId, Mutex>)

  // ----- the steps -----

  /** What one task does between two points at which another may run. */
  datatype Step =
    | Contend(task: Task, mutex: MutexId)
    | Take(task: Task)
    | Block(task: Task)
    | Timeout(task: Task)
    | GiveUp(task: Task)
    | Cleanup(task: Task)
    | TakeAgain(task: Task, mutex: MutexId)
    | Give(task: Task, mutex: MutexId)
    | Sleep(task: Task)
    | Wake(task: Task)

  function Keys(waiters: seq<Task>, tasks: map<Task, TCB>, maxPriorities: nat): (keys: seq<nat>)
    ensures |keys| == |waiters|
    ensures forall i :: 0 <= i < |keys| ==> keys[i] == Key(waiters[i], tasks, maxPriorities)
  {
    seq(|waiters|, i requires 0 <= i < |waiters| => Key(waiters[i], tasks, maxPriorities))
  }

  /** The value of a task's event list item. */
  function Key(t: Task, tasks: map<Task, TCB>, maxPriorities: nat): nat {
    if t in tasks && tasks[t].priority <= maxPriorities then maxPriorities - tasks[t].priority else 0
  }

  /** vTaskPlaceOnEventList */
  function Enqueue(waiters: seq<Task>, t: Task, tasks: map<Task, TCB>, maxPriorities: nat): seq<Task> {
    InsertSorted(waiters, Keys(waiters, tasks, maxPriorities), t, Key(t, tasks, maxPriorities))
  }

  function Dequeue(waiters: seq<Task>, t: Task): seq<Task> {
    Remove(waiters, t)
  }

  predicate IsReady(p: Place) {
    p.Running? || p.Contending? || p.GivingUp?
  }

  /** When a task may take the step.  Three clauses are hypotheses about the
      application rather than tests of the code: a task does not block while it holds a
      mutex, a free mutex goes to a task of the highest ready priority, and a mutex is
      given by its holder. */
  predicate Enabled(k: System, s: Step) {
    && s.task in k.tasks && s.task in k.places
    && var p := k.places[s.task];
       match s
       case Contend(t, m) => p.Running? && m in k.mutexes
       case Take(t) =>
         && p.Contending? && p.mutex in k.mutexes && k.mutexes[p.mutex].count > 0
         && forall u :: u in k.tasks && u in k.places && IsReady(k.places[u]) ==>
           k.tasks[u].priority <= k.tasks[t].priority
       case Block(t) =>
         p.Contending? && p.mutex in k.mutexes && k.mutexes[p.mutex].count == 0 && k.tasks[t].mutexesHeld == 0
       case Timeout(t) => p.Blocked? && p.mutex in k.mutexes
       case GiveUp(t) => p.Contending? && p.mutex in k.mutexes && k.mutexes[p.mutex].count == 0
       case Cleanup(t) => p.GivingUp? && p.mutex in k.mutexes
       case TakeAgain(t, m) => p.Running? && m in k.mutexes && k.mutexes[m].recursive && k.mutexes[m].holder == Some(t)
       case Give(t, m) => p.Running? && m in k.mutexes && k.mutexes[m].holder == Some(t)
       case Sleep(t) => p.Running?
       case Wake(t) => p.Sleeping?
  }

  function SetPlace(k: System, t: Task, p: Place): System {
    k.(places := k.places[t := p])
  }

  /** pvTaskIncrementMutexHeldCount */
  function IncrementHeld(t: TCB): TCB {
    t.(mutexesHeld := t.mutexesHeld + 1)
  }

  /** The successful branch of xQueueSemaphoreTake. */
  function AfterTake(k: System, t: Task, m: MutexId): System
    requires t in k.tasks && m in k.mutexes && k.mutexes[m].count > 0
  {
    var mutex := k.mutexes[m];
    k.(tasks := k.tasks[t := IncrementHeld(k.tasks[t])],
       places := k.places[t := Running],
       mutexes := k.mutexes[m := mutex.(count := mutex.count - 1, holder := Some(t),
                                        recursiveCalls := if mutex.recursive then mutex.recursiveCalls + 1
                                                          else mutex.recursiveCalls)])
  }

  /** The blocking branch: the holder inherits, and the task joins the waiters. */
  function AfterBlock(k: System, t: Task, m: MutexId): System
    requires t in k.tasks && m in k.mutexes
  {
    var mutex, mine := k.mutexes[m], k.tasks[t].priority;
    var known := mutex.holder.Some? && mutex.holder.value in k.tasks;
    var tasks := if known then k.tasks[mutex.holder.value := Inherit(k.tasks[mutex.holder.value], mine)] else k.tasks;
    AfterEnqueue(k.(tasks := tasks), t, m, known && InheritanceOccurred(k.tasks[mutex.holder.value], mine))
  }

  function AfterEnqueue(k: System, t: Task, m: MutexId, inherited: bool): System
    requires m in k.mutexes
  {
    var mutex := k.mutexes[m];
    k.(places := k.places[t := Blocked(m, inherited)],
       mutexes := k.mutexes[m := mutex.(waiters := Enqueue(mutex.waiters, t, k.tasks, k.maxPriorities))])
  }

  function AfterTimeout(k: System, t: Task, m: MutexId, inherited: bool): System
    requires m in k.mutexes
  {
    k.(places := k.places[t := Contending(m, inherited)],
       mutexes := k.mutexes[m := k.mutexes[m].(waiters := Dequeue(k.mutexes[m].waiters, t))])
  }

  /** prvGetDisinheritPriorityAfterTimeout */
  function HighestWaiting(k: System, m: MutexId): nat
    requires m in k.mutexes
  {
    var waiters := k.mutexes[m].waiters;
    if waiters == [] then 0
    else
      var key := Key(waiters[0], k.tasks, k.maxPriorities);
      if key <= k.maxPriorities then k.maxPriorities - key else 0
  }

  /** The end of a failed xQueueSemaphoreTake; whoever holds the mutex by then, if
      anyone, falls back to the highest priority that still waits. */
  function AfterCleanup(k: System, t: Task, m: MutexId): System
    requires m in k.mutexes
  {
    var holder := k.mutexes[m].holder;
    k.(tasks := if holder.Some? && holder.value in k.tasks
                then k.tasks[holder.value := DisinheritAfterTimeout(k.tasks[holder.value], HighestWaiting(k, m))]
                else k.tasks,
       places := k.places[t := Running])
  }

  /** prvCopyDataToQueue for a mutex, and the wake-up of the first waiter. */
  function AfterRelease(k: System, t: Task, m: MutexId): System
    requires t in k.tasks && m in k.mutexes && k.tasks[t].mutexesHeld > 0
  {
    var mutex := k.mutexes[m];
    var waiters := mutex.waiters;
    var first := if waiters == [] then t else waiters[0];
    k.(tasks := k.tasks[t := Disinherit(k.tasks[t])],
       places := if waiters != [] && first in k.places && k.places[first].Blocked?
                 then k.places[first := Contending(m, k.places[first].inherited)] else k.places,
       mutexes := k.mutexes[m := mutex.(count := mutex.count + 1, holder := None, recursiveCalls := 0,
                                        waiters := if waiters == [] then [] else waiters[1..])])
  }

  /** xSemaphoreGive, or xQueueGiveMutexRecursive, which frees the mutex only with the
      last of the calls. */
  function AfterGive(k: System, t: Task, m: MutexId): System
    requires t in k.tasks && m in k.mutexes && k.tasks[t].mutexesHeld > 0
  {
    var mutex := k.mutexes[m];
    if mutex.recursive && mutex.recursiveCalls > 1 then
      k.(mutexes := k.mutexes[m := mutex.(recursiveCalls := mutex.recursiveCalls - 1)])
    else AfterRelease(k, t, m)
  }

  function Apply(k: System, s: Step): System
    requires Enabled(k, s) && (s.Give? ==> k.tasks[s.task].mutexesHeld > 0)
  {
    var p := k.places[s.task];
    match s
    case Contend(t, m) => SetPlace(k, t, Contending(m, false))
    case Take(t) => AfterTake(k, t, p.mutex)
    case Block(t) => AfterBlock(k, t, p.mutex)
    case Timeout(t) => AfterTimeout(k, t, p.mutex, p.inherited)
    case GiveUp(t) => SetPlace(k, t, if p.inherited then GivingUp(p.mutex) else Running)
    case Cleanup(t) => AfterCleanup(k, t, p.mutex)
    case TakeAgain(t, m) =>
      k.(mutexes := k.mutexes[m := k.mutexes[m].(recursiveCalls := k.mutexes[m].recursiveCalls + 1)])
    case Give(t, m) => AfterGive(k, t, m)
    case Sleep(t) => SetPlace(k, t, Sleeping)
    case Wake(t) => SetPlace(k, t, Running)
  }

  // ----- the invariant -----

  ghost function HeldBy(mutexes: map<MutexId, Mutex>, t: Task): set<MutexId> {
    set m | m in mutexes && mutexes[m].holder == Some(t)
  }

  /** The accounts of a task agree with the mutexes it holds. */
  ghost predicate TaskOk(k: System, t: Task)
    requires t in k.tasks && t in k.places
  {
    var task, p := k.tasks[t], k.places[t];
    && task.mutexesHeld == |HeldBy(k.mutexes, t)|
    && task.basePriority <= task.priority <= k.maxPriorities
    && (task.mutexesHeld == 0 ==> task.priority == task.basePriority)
    && (p.Blocked? || p.GivingUp? || (p.Contending? && p.inherited) ==> task.mutexesHeld == 0)
    && (p.Blocked? || p.GivingUp? || p.Contending? ==> p.mutex in k.mutexes)
    && (p.Blocked? ==> p.mutex in k.mutexes && t in k.mutexes[p.mutex].waiters)
  }

  ghost predicate Counted(mutex: Mutex) {
    && mutex.count == (if mutex.holder.None? then 1 else 0)
    && (mutex.recursiveCalls > 0 <==> mutex.recursive && mutex.holder.Some?)
  }

  /** The waiters are blocked on the mutex, the most urgent first. */
  ghost predicate Queued(k: System, m: MutexId)
    requires m in k.mutexes
  {
    var waiters := k.mutexes[m].waiters;
    && Distinct(waiters)
    && (forall w :: w in waiters ==> w in k.tasks && w in k.places && k.places[w].Blocked? && k.places[w].mutex == m)
    && Ascending(Keys(waiters, k.tasks, k.maxPriorities))
  }

  ghost predicate AtMost(k: System, waiters: seq<Task>, p: nat) {
    forall w :: w in waiters && w in k.tasks ==> k.tasks[w].priority <= p
  }

  ghost predicate NotBelow(k: System, t: Task, waiters: seq<Task>) {
    t in k.tasks && AtMost(k, waiters, k.tasks[t].priority)
  }

  /** A task that will take the free mutex unless one at least as urgent does. */
  ghost predicate Heir(k: System, m: MutexId, u: Task)
    requires m in k.mutexes
  {
    && u in k.tasks && u in k.places && k.places[u].Contending? && k.places[u].mutex == m
    && k.tasks[u].mutexesHeld == 0 && NotBelow(k, u, k.mutexes[m].waiters)
  }

  /** No inversion: the holder is at least as urgent as every waiter; a free mutex
      that has waiters has an heir. */
  ghost predicate Bounded(k: System, m: MutexId)
    requires m in k.mutexes
  {
    var mutex := k.mutexes[m];
    match mutex.holder
    case Some(h) => NotBelow(k, h, mutex.waiters)
    case None => mutex.waiters == [] || exists u :: Heir(k, m, u)
  }

  ghost predicate MutexOk(k: System, m: MutexId)
    requires m in k.mutexes
  {
    Counted(k.mutexes[m]) && Queued(k, m) && Bounded(k, m)
  }

  ghost predicate Ok(k: System) {
    && k.tasks.Keys == k.places.Keys
    && (forall t :: t in k.tasks ==> TaskOk(k, t))
    && (forall m :: m in k.mutexes ==> MutexOk(k, m))
  }

  // ----- every step keeps the invariant -----

  /** What a step must leave alone for a mutex that it does not touch. */
  ghost predicate Spared(k: System, k': System, m: MutexId)
    requires m in k.mutexes
  {
    var mutex := k.mutexes[m];
    && m in k'.mutexes && k'.mutexes[m] == mutex && k'.maxPriorities == k.maxPriorities
    && (forall w :: w in mutex.waiters ==>
          && w in k.tasks && w in k.places && w in k'.tasks && w in k'.places
          && k'.places[w] == k.places[w] && k'.tasks[w].priority == k.tasks[w].priority)
    && (mutex.holder.Some? ==> NotBelow(k', mutex.holder.value, mutex.waiters))
    && (mutex.holder.None? ==> forall u :: Heir(k, m, u) ==>
          && u in k'.tasks && u in k'.places && k'.places[u] == k.places[u] && k'.tasks[u] == k.tasks[u])
  }

  lemma SparedOk(k: System, k': System, m: MutexId)
    requires m in k.mutexes && MutexOk(k, m) && Spared(k, k', m)
    ensures MutexOk(k', m)
  {
    assert Keys(k.mutexes[m].waiters, k'.tasks, k.maxPriorities) ==
      Keys(k.mutexes[m].waiters, k.tasks, k.maxPriorities);
    assert Queued(k', m);
    if k.mutexes[m].holder.None? && k.mutexes[m].waiters != [] {
      var u :| Heir(k, m, u);
      assert Heir(k', m, u);
    }
  }

  /** Nobody who waits on a mutex is anywhere else. */
  lemma WaitersAreBlocked(k: System, m: MutexId, t: Task)
    requires Ok(k) && m in k.mutexes && t in k.tasks
    ensures t in k.mutexes[m].waiters <==> k.places[t].Blocked? && k.places[t].mutex == m
    ensures k.tasks[t].mutexesHeld > 0 ==> t !in k.mutexes[m].waiters
    ensures forall w :: w in k.mutexes[m].waiters ==> w in k.tasks && w in k.places
    ensures k.mutexes[m].holder.Some? ==> NotBelow(k, k.mutexes[m].holder.value, k.mutexes[m].waiters)
  {
    assert TaskOk(k, t) && MutexOk(k, m);
  }

  /** A task that moves without touching a mutex. */
  lemma SetPlaceOk(k: System, t: Task, p: Place)
    requires Ok(k) && t in k.tasks && !k.places[t].Blocked? && !p.Blocked?
    requires p.GivingUp? || (p.Contending? && p.inherited) ==> k.tasks[t].mutexesHeld == 0
    requires p.GivingUp? || p.Contending? ==> p.mutex in k.mutexes
    requires k.places[t].Contending? && k.places[t].mutex in k.mutexes ==> k.mutexes[k.places[t].mutex].holder.Some?
    ensures Ok(SetPlace(k, t, p))
  {
    var k' := SetPlace(k, t, p);
    hide MutexOk;
    forall m | m in k'.mutexes ensures MutexOk(k', m) {
      WaitersAreBlocked(k, m, t);
      SparedOk(k, k', m);
    }
  }

  lemma HoldersHold(k: System, m: MutexId)
    requires Ok(k) && m in k.mutexes && k.mutexes[m].holder.Some?
    ensures k.mutexes[m].holder.value in k.tasks && k.tasks[k.mutexes[m].holder.value].mutexesHeld > 0
    ensures k.tasks[k.mutexes[m].holder.value].mutexesHeld == 1 ==>
              forall n :: n in k.mutexes && k.mutexes[n].holder == k.mutexes[m].holder ==> n == m
  {
    var h := k.mutexes[m].holder.value;
    assert MutexOk(k, m) && TaskOk(k, h);
    var held := HeldBy(k.mutexes, h);
    assert m in held && |held - {m}| == |held| - 1;
    forall n | n in k.mutexes && k.mutexes[n].holder == Some(h) && k.tasks[h].mutexesHeld == 1 ensures n == m {
      assert held - {m} == {};
      assert n in held;
    }
  }

  lemma ReprioritizeSpares(k: System, h: Task, p: nat, m: MutexId)
    requires h in k.tasks && k.tasks[h].mutexesHeld > 0 && m in k.mutexes && h !in k.mutexes[m].waiters
    requires forall w :: w in k.mutexes[m].waiters ==> w in k.tasks && w in k.places
    requires k.mutexes[m].holder.Some? ==> NotBelow(k, k.mutexes[m].holder.value, k.mutexes[m].waiters)
    requires k.mutexes[m].holder == Some(h) ==> AtMost(k, k.mutexes[m].waiters, p)
    ensures Spared(k, k.(tasks := k.tasks[h := k.tasks[h].(priority := p)]), m)
  {
  }

  /** The priority of a holder may change to anything that its waiters allow. */
  lemma ReprioritizeOk(k: System, h: Task, p: nat)
    requires Ok(k) && h in k.tasks && k.tasks[h].mutexesHeld > 0 && k.tasks[h].basePriority <= p <= k.maxPriorities
    requires forall m :: m in k.mutexes && k.mutexes[m].holder == Some(h) ==> AtMost(k, k.mutexes[m].waiters, p)
    ensures Ok(k.(tasks := k.tasks[h := k.tasks[h].(priority := p)]))
  {
    var k' := k.(tasks := k.tasks[h := k.tasks[h].(priority := p)]);
    forall t | t in k'.tasks ensures TaskOk(k', t) {
      assert TaskOk(k, t);
    }
    hide TaskOk, MutexOk;
    forall m | m in k'.mutexes ensures MutexOk(k', m) {
      WaitersAreBlocked(k, m, h);
      ReprioritizeSpares(k, h, p, m);
      SparedOk(k, k', m);
    }
  }

  /** The set of mutexes of a task, when the holder of one of them changes. */
  lemma HeldAfter(mutexes: map<MutexId, Mutex>, m: MutexId, mutex: Mutex, t: Task)
    requires m in mutexes
    ensures mutexes[m].holder == mutex.holder ==> HeldBy(mutexes[m := mutex], t) == HeldBy(mutexes, t)
    ensures mutexes[m].holder != Some(t) && mutex.holder == Some(t) ==>
              |HeldBy(mutexes[m := mutex], t)| == |HeldBy(mutexes, t)| + 1
    ensures mutexes[m].holder == Some(t) && mutex.holder != Some(t) ==>
              |HeldBy(mutexes[m := mutex], t)| == |HeldBy(mutexes, t)| - 1
    ensures mutexes[m].holder != Some(t) && mutex.holder != Some(t) ==>
            HeldBy(mutexes[m := mutex], t) == HeldBy(mutexes, t)
  {
    if mutexes[m].holder != Some(t) && mutex.holder == Some(t) {
      assert HeldBy(mutexes[m := mutex], t) == HeldBy(mutexes, t) + {m};
    } else if mutexes[m].holder == Some(t) && mutex.holder != Some(t) {
      assert HeldBy(mutexes[m := mutex], t) == HeldBy(mutexes, t) - {m};
    }
  }

  /** A step by task t on mutex m, which may also wake task w. */
  ghost predicate Local(k: System, k': System, m: MutexId, t: Task, w: Task) {
    && t in k.tasks && w in k.tasks && m in k.mutexes && m in k'.mutexes && k'.maxPriorities == k.maxPriorities
    && k.tasks.Keys == k.places.Keys && k'.tasks.Keys == k.tasks.Keys && k'.places.Keys == k.places.Keys
    && k'.mutexes == k.mutexes[m := k'.mutexes[m]]
    && (forall u :: u in k.tasks && u != t ==> k'.tasks[u] == k.tasks[u])
    && (forall u :: u in k.tasks && u != t && u != w ==> k'.places[u] == k.places[u])
    && (k.mutexes[m].holder != k'.mutexes[m].holder ==>
          (k.mutexes[m].holder.None? || k.mutexes[m].holder == Some(t))
          && (k'.mutexes[m].holder.None? || k'.mutexes[m].holder == Some(t)))
    && (forall u :: u in k.mutexes[m].waiters && u != t && u != w ==> u in k'.mutexes[m].waiters)
    && At(k.places[t], m) && At(k.places[w], m)
    && (k'.tasks[t].priority == k.tasks[t].priority || HeldBy(k'.mutexes, t) == {})
  }

  /** The task is running or has to do with this mutex. */
  ghost predicate At(p: Place, m: MutexId) {
    p.Running? || ((p.Contending? || p.Blocked? || p.GivingUp?) && p.mutex == m)
  }

  lemma LocalTask(k: System, k': System, m: MutexId, t: Task, w: Task, u: Task)
    requires Local(k, k', m, t, w) && u in k.tasks && u != t && u != w && TaskOk(k, u)
    ensures TaskOk(k', u)
  {
    HeldAfter(k.mutexes, m, k'.mutexes[m], u);
  }

  lemma LocalMutex(k: System, k': System, m: MutexId, t: Task, w: Task, n: MutexId)
    requires Local(k, k', m, t, w) && n in k.mutexes && n != m && MutexOk(k, n)
    ensures n in k'.mutexes && MutexOk(k', n)
  {
    if k.mutexes[n].holder == Some(t) {
      assert n in HeldBy(k'.mutexes, t);
    }
    SparedOk(k, k', n);
  }

  lemma LocalOk(k: System, k': System, m: MutexId, t: Task, w: Task)
    requires Ok(k) && Local(k, k', m, t, w)
    requires TaskOk(k', t) && TaskOk(k', w) && MutexOk(k', m)
    ensures Ok(k')
  {
    hide TaskOk, MutexOk;
    forall u | u in k'.tasks ensures TaskOk(k', u) {
      if u != t && u != w {
        LocalTask(k, k', m, t, w, u);
      }
    }
    forall n | n in k'.mutexes ensures MutexOk(k', n) {
      if n != m {
        LocalMutex(k, k', m, t, w, n);
      }
    }
  }

  lemma TakeOk(k: System, t: Task, m: MutexId)
    requires Ok(k) && t in k.tasks && m in k.mutexes && k.mutexes[m].count > 0
    requires k.places[t].Contending? && k.places[t].mutex == m
    requires forall u :: u in k.tasks && IsReady(k.places[u]) ==> k.tasks[u].priority <= k.tasks[t].priority
    ensures Ok(AfterTake(k, t, m))
  {
    TakenOk(k, t, m);
    TakeIsLocal(k, t, m);
    hide Ok, Local, MutexOk, TaskOk;
    LocalOk(k, AfterTake(k, t, m), m, t, t);
  }

  lemma TakeIsLocal(k: System, t: Task, m: MutexId)
    requires k.tasks.Keys == k.places.Keys && t in k.tasks && TaskOk(k, t)
    requires m in k.mutexes && k.mutexes[m].count > 0 && Counted(k.mutexes[m])
    requires k.places[t].Contending? && k.places[t].mutex == m
    ensures Local(k, AfterTake(k, t, m), m, t, t) && TaskOk(AfterTake(k, t, m), t)
  {
    HeldAfter(k.mutexes, m, AfterTake(k, t, m).mutexes[m], t);
  }

  lemma TakenOk(k: System, t: Task, m: MutexId)
    requires Ok(k) && t in k.tasks && m in k.mutexes && k.mutexes[m].count > 0
    requires k.places[t].Contending? && k.places[t].mutex == m
    requires forall u :: u in k.tasks && IsReady(k.places[u]) ==> k.tasks[u].priority <= k.tasks[t].priority
    ensures MutexOk(AfterTake(k, t, m), m)
  {
    var k' := AfterTake(k, t, m);
    var waiters := k.mutexes[m].waiters;
    assert MutexOk(k, m);
    assert t !in waiters;
    assert Keys(waiters, k'.tasks, k.maxPriorities) == Keys(waiters, k.tasks, k.maxPriorities);
    if waiters != [] {
      var u :| Heir(k, m, u);
    }
  }

  lemma EnqueueMembers(k: System, waiters: seq<Task>, t: Task)
    requires Distinct(waiters) && Ascending(Keys(waiters, k.tasks, k.maxPriorities)) && t !in waiters
    ensures var waiters' := Enqueue(waiters, t, k.tasks, k.maxPriorities);
            && Distinct(waiters') && Ascending(Keys(waiters', k.tasks, k.maxPriorities))
            && forall w :: w in waiters' <==> w in waiters || w == t
  {
    var keys, key := Keys(waiters, k.tasks, k.maxPriorities), Key(t, k.tasks, k.maxPriorities);
    var pos := InsertPosition(keys, key);
    InsertAtMembers(Ring(waiters, 0), t, pos);
    InsertKeepsAscending(keys, key);
    KeysOfSplice(waiters, t, pos, k.tasks, k.maxPriorities);
    hide Keys, Key;
  }

  lemma KeysOfSplice(waiters: seq<Task>, t: Task, pos: nat, tasks: map<Task, TCB>, maxPriorities: nat)
    requires pos <= |waiters|
    ensures var keys := Keys(waiters, tasks, maxPriorities);
            Keys(waiters[..pos] + [t] + waiters[pos..], tasks, maxPriorities) ==
            keys[..pos] + [Key(t, tasks, maxPriorities)] + keys[pos..]
  {
    hide Key;
  }

  lemma EnqueueOk(k: System, t: Task, m: MutexId, inherited: bool)
    requires Ok(k) && t in k.tasks && m in k.mutexes && k.places[t].Contending? && k.places[t].mutex == m
    requires k.mutexes[m].holder.Some? && k.tasks[t].mutexesHeld == 0
    requires k.mutexes[m].holder.value in k.tasks && k.tasks[t].priority <= k.tasks[k.mutexes[m].holder.value].priority
    ensures Ok(AfterEnqueue(k, t, m, inherited))
  {
    EnqueuedOk(k, t, m, inherited);
    EnqueueIsLocal(k, t, m, inherited);
    hide Ok, Local, MutexOk, TaskOk;
    LocalOk(k, AfterEnqueue(k, t, m, inherited), m, t, t);
  }

  lemma EnqueuedOk(k: System, t: Task, m: MutexId, inherited: bool)
    requires m in k.mutexes && t in k.tasks && t in k.places && MutexOk(k, m) && !k.places[t].Blocked?
    requires k.mutexes[m].holder.Some? && k.mutexes[m].holder.value in k.tasks
    requires k.tasks[t].priority <= k.tasks[k.mutexes[m].holder.value].priority
    ensures MutexOk(AfterEnqueue(k, t, m, inherited), m)
  {
    EnqueueMembers(k, k.mutexes[m].waiters, t);
    hide Enqueue, Ascending, Distinct;
  }

  lemma EnqueueIsLocal(k: System, t: Task, m: MutexId, inherited: bool)
    requires k.tasks.Keys == k.places.Keys && t in k.tasks && TaskOk(k, t)
    requires m in k.mutexes && MutexOk(k, m) && k.places[t].Contending? && k.places[t].mutex == m
    requires k.tasks[t].mutexesHeld == 0
    ensures Local(k, AfterEnqueue(k, t, m, inherited), m, t, t) && TaskOk(AfterEnqueue(k, t, m, inherited), t)
  {
    hide Enqueue, Ascending, Distinct, Bounded, Counted, Keys;
    EnqueueMembers(k, k.mutexes[m].waiters, t);
    HeldAfter(k.mutexes, m, AfterEnqueue(k, t, m, inherited).mutexes[m], t);
    hide HeldBy, Queued;
  }

  lemma BlockOk(k: System, t: Task, m: MutexId)
    requires Ok(k) && t in k.tasks && m in k.mutexes && k.places[t].Contending? && k.places[t].mutex == m
    requires k.mutexes[m].count == 0 && k.tasks[t].mutexesHeld == 0
    ensures Ok(AfterBlock(k, t, m))
  {
    assert MutexOk(k, m) && TaskOk(k, t);
    HoldersHold(k, m);
    var h, mine := k.mutexes[m].holder.value, k.tasks[t].priority;
    forall n | n in k.mutexes && k.mutexes[n].holder == Some(h)
      ensures AtMost(k, k.mutexes[n].waiters, Max(k.tasks[h].priority, mine))
    {
      WaitersAreBlocked(k, n, h);
    }
    hide Ok, MutexOk, Enqueue;
    ReprioritizeOk(k, h, Max(k.tasks[h].priority, mine));
    var k1 := k.(tasks := k.tasks[h := k.tasks[h].(priority := Max(k.tasks[h].priority, mine))]);
    assert k1.tasks[h] == Inherit(k.tasks[h], mine);
    EnqueueOk(k1, t, m, InheritanceOccurred(k.tasks[h], mine));
  }

  lemma DequeueMembers(k: System, waiters: seq<Task>, t: Task)
    requires Distinct(waiters) && Ascending(Keys(waiters, k.tasks, k.maxPriorities)) && t in waiters
    ensures var waiters' := Dequeue(waiters, t);
            && Distinct(waiters') && Ascending(Keys(waiters', k.tasks, k.maxPriorities))
            && forall w :: w in waiters' <==> w in waiters && w != t
  {
    var j, keys := IndexOf(waiters, t), Keys(waiters, k.tasks, k.maxPriorities);
    RemoveAtMembers(Ring(waiters, 0), j);
    KeysOfCut(waiters, j, k.tasks, k.maxPriorities);
    assert Ascending(keys[..j] + keys[j+1..]);
    hide Keys, Key;
  }

  lemma KeysOfCut(waiters: seq<Task>, j: nat, tasks: map<Task, TCB>, maxPriorities: nat)
    requires j < |waiters|
    ensures var keys := Keys(waiters, tasks, maxPriorities);
            Keys(waiters[..j] + waiters[j+1..], tasks, maxPriorities) == keys[..j] + keys[j+1..]
  {
    hide Key;
  }

  lemma TimeoutOk(k: System, t: Task, m: MutexId, inherited: bool)
    requires Ok(k) && t in k.tasks && m in k.mutexes && k.places[t] == Blocked(m, inherited)
    ensures Ok(AfterTimeout(k, t, m, inherited))
  {
    assert t in k.mutexes[m].waiters by { WaitersAreBlocked(k, m, t); }
    TimedOutOk(k, t, m, inherited);
    TimeoutIsLocal(k, t, m, inherited);
    hide Ok, Local, MutexOk, TaskOk;
    LocalOk(k, AfterTimeout(k, t, m, inherited), m, t, t);
  }

  lemma TimedOutOk(k: System, t: Task, m: MutexId, inherited: bool)
    requires m in k.mutexes && t in k.tasks && MutexOk(k, m) && t in k.mutexes[m].waiters
    ensures MutexOk(AfterTimeout(k, t, m, inherited), m)
  {
    var k' := AfterTimeout(k, t, m, inherited);
    DequeueMembers(k, k.mutexes[m].waiters, t);
    hide Dequeue, Ascending, Distinct;
    if k.mutexes[m].holder.None? {
      var u :| Heir(k, m, u);
      assert Heir(k', m, u);
    }
  }

  lemma TimeoutIsLocal(k: System, t: Task, m: MutexId, inherited: bool)
    requires k.tasks.Keys == k.places.Keys && t in k.tasks && TaskOk(k, t) && k.places[t] == Blocked(m, inherited)
    requires m in k.mutexes && MutexOk(k, m) && t in k.mutexes[m].waiters
    ensures Local(k, AfterTimeout(k, t, m, inherited), m, t, t) && TaskOk(AfterTimeout(k, t, m, inherited), t)
  {
    hide Dequeue, Ascending, Distinct, Bounded, Counted, Keys;
    DequeueMembers(k, k.mutexes[m].waiters, t);
    HeldAfter(k.mutexes, m, AfterTimeout(k, t, m, inherited).mutexes[m], t);
    hide HeldBy, Queued;
  }

  /** The clean-up's two assertions hold: the holder, if there is one, holds at least
      one mutex, and is not the task that timed out. */
  lemma CleanupAssertionsHold(k: System, t: Task, m: MutexId)
    requires Ok(k) && t in k.tasks && k.places[t] == GivingUp(m) && m in k.mutexes && k.mutexes[m].holder.Some?
    ensures k.mutexes[m].holder.value in k.tasks && k.tasks[k.mutexes[m].holder.value].mutexesHeld > 0
    ensures k.mutexes[m].holder.value != t
  {
    HoldersHold(k, m);
    assert TaskOk(k, t);
  }

  /** The first waiter is the most urgent. */
  lemma HighestIsFirst(k: System, m: MutexId)
    requires Ok(k) && m in k.mutexes
    ensures k.mutexes[m].waiters != [] ==>
              k.mutexes[m].waiters[0] in k.tasks && HighestWaiting(k, m) == k.tasks[k.mutexes[m].waiters[0]].priority
    ensures forall w :: w in k.mutexes[m].waiters ==> w in k.tasks && k.tasks[w].priority <= HighestWaiting(k, m)
    ensures HighestWaiting(k, m) <= k.maxPriorities
  {
    var waiters := k.mutexes[m].waiters;
    assert MutexOk(k, m);
    forall w | w in waiters ensures w in k.tasks && k.tasks[w].priority <= HighestWaiting(k, m) {
      var j := IndexOf(waiters, w);
      assert TaskOk(k, w) && TaskOk(k, waiters[0]);
      assert Keys(waiters, k.tasks, k.maxPriorities)[0] <= Keys(waiters, k.tasks, k.maxPriorities)[j];
    }
  }

  /** After the clean-up, a holder of this mutex alone keeps no more priority than it
      is owed: its own base, or that of a task that still waits. */
  lemma NoExcessAfterCleanup(k: System, t: Task, m: MutexId)
    requires Ok(k) && t in k.tasks && k.places[t] == GivingUp(m) && m in k.mutexes && k.mutexes[m].holder.Some?
    requires k.mutexes[m].holder.value in k.tasks && k.tasks[k.mutexes[m].holder.value].mutexesHeld == 1
    ensures var k', h := AfterCleanup(k, t, m), k.mutexes[m].holder.value;
            && k'.tasks == k.tasks[h := k.tasks[h].(priority := k'.tasks[h].priority)]
            && k'.tasks[h].priority >= k'.tasks[h].basePriority
            && (k'.tasks[h].priority == k'.tasks[h].basePriority
                || exists w ::
                     w in k'.mutexes[m].waiters && w in k'.tasks && k'.tasks[w].priority == k'.tasks[h].priority)
  {
    HighestIsFirst(k, m);
    HoldersHold(k, m);
    var waiters := k.mutexes[m].waiters;
    if waiters != [] {
      WaitersAreBlocked(k, m, k.mutexes[m].holder.value);
      assert waiters[0] in waiters;
    }
    hide Ok;
  }

  lemma CleanupOk(k: System, t: Task, m: MutexId)
    requires Ok(k) && t in k.tasks && k.places[t] == GivingUp(m) && m in k.mutexes
    ensures Ok(AfterCleanup(k, t, m))
  {
    var k1 := k;
    if k.mutexes[m].holder.Some? {
      var h := k.mutexes[m].holder.value;
      HoldersHold(k, m);
      HighestIsFirst(k, m);
      var task := DisinheritAfterTimeout(k.tasks[h], HighestWaiting(k, m));
      assert TaskOk(k, h) && task == k.tasks[h].(priority := task.priority);
      forall n | n in k.mutexes && k.mutexes[n].holder == Some(h)
        ensures AtMost(k, k.mutexes[n].waiters, task.priority)
      {
        WaitersAreBlocked(k, n, h);
      }
      hide Ok, HighestWaiting;
      ReprioritizeOk(k, h, task.priority);
      k1 := k.(tasks := k.tasks[h := task]);
    }
    SetPlaceOk(k1, t, Running);
  }

  lemma TakeAgainOk(k: System, t: Task, m: MutexId)
    requires Ok(k) && t in k.tasks && k.places[t].Running? && m in k.mutexes
    requires k.mutexes[m].recursive && k.mutexes[m].holder == Some(t)
    ensures Ok(k.(mutexes := k.mutexes[m := k.mutexes[m].(recursiveCalls := k.mutexes[m].recursiveCalls + 1)]))
  {
    RecountOk(k, t, m, k.mutexes[m].recursiveCalls + 1);
  }

  lemma RecountOk(k: System, t: Task, m: MutexId, calls: nat)
    requires Ok(k) && t in k.tasks && k.places[t].Running? && m in k.mutexes
    requires k.mutexes[m].recursive && k.mutexes[m].holder == Some(t) && calls > 0
    ensures Ok(k.(mutexes := k.mutexes[m := k.mutexes[m].(recursiveCalls := calls)]))
  {
    var k' := k.(mutexes := k.mutexes[m := k.mutexes[m].(recursiveCalls := calls)]);
    assert TaskOk(k, t) && MutexOk(k, m);
    HeldAfter(k.mutexes, m, k'.mutexes[m], t);
    assert MutexOk(k', m) && TaskOk(k', t);
    hide MutexOk, TaskOk;
    LocalOk(k, k', m, t, t);
  }

  lemma ReleaseOk(k: System, t: Task, m: MutexId)
    requires Ok(k) && t in k.tasks && k.places[t].Running? && m in k.mutexes && k.mutexes[m].holder == Some(t)
    ensures k.tasks[t].mutexesHeld > 0 && Ok(AfterRelease(k, t, m))
  {
    HoldersHold(k, m);
    var waiters := k.mutexes[m].waiters;
    var first := if waiters == [] then t else waiters[0];
    assert first == t || (first in k.tasks && k.places[first].Blocked? && k.places[first].mutex == m)
      by { WaitersAreBlocked(k, m, first); }
    assert MutexOk(k, m) && TaskOk(k, t) && TaskOk(k, first);
    HighestIsFirst(k, m);
    ReleasedOk(k, t, m, first);
    ReleaseIsLocal(k, t, m, first);
    hide Ok, Local, MutexOk, TaskOk;
    LocalOk(k, AfterRelease(k, t, m), m, t, first);
  }

  lemma ReleasedOk(k: System, t: Task, m: MutexId, first: Task)
    requires t in k.tasks && m in k.mutexes && k.mutexes[m].holder == Some(t) && MutexOk(k, m)
    requires k.tasks[t].mutexesHeld > 0 && t in k.places && k.places[t].Running?
    requires first == if k.mutexes[m].waiters == [] then t else k.mutexes[m].waiters[0]
    requires first == t || (first in k.tasks && k.tasks[first].mutexesHeld == 0)
    requires first == t || forall w :: w in k.mutexes[m].waiters ==>
            w in k.tasks && k.tasks[w].priority <= k.tasks[first].priority
    ensures MutexOk(AfterRelease(k, t, m), m)
  {
    ReleaseQueues(k, t, m, first);
    if k.mutexes[m].waiters != [] {
      HeirOk(k, t, m, first);
    }
    hide Queued, Heir;
  }

  lemma ReleaseQueues(k: System, t: Task, m: MutexId, first: Task)
    requires t in k.tasks && m in k.mutexes && Queued(k, m) && k.tasks[t].mutexesHeld > 0
    requires t in k.places && k.places[t].Running?
    requires first == if k.mutexes[m].waiters == [] then t else k.mutexes[m].waiters[0]
    ensures Queued(AfterRelease(k, t, m), m)
  {
    var k', waiters := AfterRelease(k, t, m), k.mutexes[m].waiters;
    if waiters != [] {
      TailOk(waiters, k.tasks, k'.tasks, k.maxPriorities);
      hide Ascending, Distinct, Keys;
    }
  }

  lemma HeirOk(k: System, t: Task, m: MutexId, first: Task)
    requires t in k.tasks && m in k.mutexes && k.mutexes[m].waiters != [] && first == k.mutexes[m].waiters[0]
    requires k.tasks[t].mutexesHeld > 0 && t !in k.mutexes[m].waiters
    requires first in k.tasks && first in k.places && k.places[first].Blocked? && k.tasks[first].mutexesHeld == 0
    requires forall w :: w in k.mutexes[m].waiters ==> w in k.tasks && k.tasks[w].priority <= k.tasks[first].priority
    ensures Heir(AfterRelease(k, t, m), m, first)
  {
  }

  lemma TailOk(waiters: seq<Task>, tasks: map<Task, TCB>, tasks': map<Task, TCB>, maxPriorities: nat)
    requires waiters != [] && Distinct(waiters) && Ascending(Keys(waiters, tasks, maxPriorities))
    requires forall w :: w in waiters ==> Key(w, tasks', maxPriorities) == Key(w, tasks, maxPriorities)
    ensures Distinct(waiters[1..]) && waiters[0] !in waiters[1..]
            && Ascending(Keys(waiters[1..], tasks', maxPriorities))
  {
    var rest, keys := waiters[1..], Keys(waiters, tasks, maxPriorities);
    forall i | 0 <= i < |rest| ensures Keys(rest, tasks', maxPriorities)[i] == keys[1..][i] {
      assert rest[i] == waiters[i + 1] && rest[i] in waiters;
    }
    assert Keys(rest, tasks', maxPriorities) == keys[1..];
  }

  lemma ReleaseIsLocal(k: System, t: Task, m: MutexId, first: Task)
    requires k.tasks.Keys == k.places.Keys && t in k.tasks && m in k.mutexes && k.mutexes[m].holder == Some(t)
    requires k.tasks[t].mutexesHeld > 0 && k.places[t].Running? && TaskOk(k, t)
    requires first == if k.mutexes[m].waiters == [] then t else k.mutexes[m].waiters[0]
    requires first in k.tasks && TaskOk(k, first)
    requires first == t || (k.places[first].Blocked? && k.places[first].mutex == m)
    ensures Local(k, AfterRelease(k, t, m), m, t, first)
    ensures TaskOk(AfterRelease(k, t, m), t) && TaskOk(AfterRelease(k, t, m), first)
  {
    var k' := AfterRelease(k, t, m);
    HeldAfter(k.mutexes, m, k'.mutexes[m], t);
    HeldAfter(k.mutexes, m, k'.mutexes[m], first);
    assert forall u :: u in k.mutexes[m].waiters && u != first ==> u in k'.mutexes[m].waiters;
  }

  // ----- whole runs -----

  lemma StepOk(k: System, s: Step)
    requires Ok(k) && Enabled(k, s)
    ensures (s.Give? ==> k.tasks[s.task].mutexesHeld > 0) && Ok(Apply(k, s))
  {
    var t, p := s.task, k.places[s.task];
    assert TaskOk(k, t);
    match s
    case Contend(_, m) => SetPlaceOk(k, t, Contending(m, false));
    case Take(_) => TakeOk(k, t, p.mutex);
    case Block(_) => BlockOk(k, t, p.mutex);
    case Timeout(_) => TimeoutOk(k, t, p.mutex, p.inherited);
    case GiveUp(_) =>
      assert MutexOk(k, p.mutex);
      SetPlaceOk(k, t, if p.inherited then GivingUp(p.mutex) else Running);
    case Cleanup(_) => CleanupOk(k, t, p.mutex);
    case TakeAgain(_, m) => TakeAgainOk(k, t, m);
    case Give(_, m) => GiveOk(k, t, m);
    case Sleep(_) => SetPlaceOk(k, t, Sleeping);
    case Wake(_) => SetPlaceOk(k, t, Running);
  }

  lemma GiveOk(k: System, t: Task, m: MutexId)
    requires Ok(k) && t in k.tasks && k.places[t].Running? && m in k.mutexes && k.mutexes[m].holder == Some(t)
    ensures k.tasks[t].mutexesHeld > 0 && Ok(AfterGive(k, t, m))
  {
    ReleaseOk(k, t, m);
    if k.mutexes[m].recursive && k.mutexes[m].recursiveCalls > 1 {
      RecountOk(k, t, m, k.mutexes[m].recursiveCalls - 1);
    }
  }

  /** Before the first step: nobody holds anything or waits. */
  ghost predicate Initial(k: System) {
    && k.tasks.Keys == k.places.Keys
    && (forall t :: t in k.tasks ==>
          && k.places[t].Running? && k.tasks[t].mutexesHeld == 0
          && k.tasks[t].priority == k.tasks[t].basePriority <= k.maxPriorities)
    && (forall m :: m in k.mutexes ==> k.mutexes[m] == Mutex(k.mutexes[m].recursive, 1, None, 0, []))
  }

  /** A run lists the states, each one step after the one before. */
  ghost predicate IsRun(states: seq<System>, steps: seq<Step>) {
    && |states| == |steps| + 1 && Initial(states[0])
    && forall i :: 0 <= i < |steps| ==> Follows(states[i], steps[i], states[i + 1])
  }

  ghost predicate Follows(k: System, s: Step, k': System) {
    && Enabled(k, s) && (s.Give? ==> k.tasks[s.task].mutexesHeld > 0) && k' == Apply(k, s)
  }

  lemma {:induction false} EveryStateIsOk(states: seq<System>, steps: seq<Step>, i: nat)
    requires IsRun(states, steps) && i < |states|
    ensures Ok(states[i])
  {
    var k := states[i];
    if i == 0 {
      forall t | t in k.tasks ensures TaskOk(k, t) {
        assert HeldBy(k.mutexes, t) == {};
      }
    } else {
      EveryStateIsOk(states, steps, i - 1);
      assert Follows(states[i - 1], steps[i - 1], k);
      StepOk(states[i - 1], steps[i - 1]);
    }
  }

  /** Bounded inversion: in every state of every run, no task waits for a mutex whose
      holder has a lower priority than the task. */
  lemma NoInversion(states: seq<System>, steps: seq<Step>, i: nat, m: MutexId, w: Task)
    requires IsRun(states, steps) && i < |states|
    requires m in states[i].mutexes && w in states[i].places
    requires states[i].places[w].Blocked? && states[i].places[w].mutex == m && states[i].mutexes[m].holder.Some?
    ensures var k := states[i];
            && w in k.tasks && k.mutexes[m].holder.value in k.tasks
            && k.tasks[w].priority <= k.tasks[k.mutexes[m].holder.value].priority
  {
    EveryStateIsOk(states, steps, i);
    WaitersAreBlocked(states[i], m, w);
  }

  /** The accounts balance: in every state of every run, a task's count is the
      number of mutexes it holds, a mutex counts 1 exactly when nobody holds it, and
      a task that holds none has its base priority. */
  lemma AccountsBalance(states: seq<System>, steps: seq<Step>, i: nat, t: Task, m: MutexId)
    requires IsRun(states, steps) && i < |states| && t in states[i].tasks && m in states[i].mutexes
    ensures var k := states[i];
            && k.tasks[t].mutexesHeld == |set n | n in k.mutexes && k.mutexes[n].holder == Some(t)|
            && k.tasks[t].priority >= k.tasks[t].basePriority
            && ((forall n :: n in k.mutexes ==> k.mutexes[n].holder != Some(t)) ==>
                  k.tasks[t].priority == k.tasks[t].basePriority)
            && (k.mutexes[m].count == 1 <==> k.mutexes[m].holder.None?) && k.mutexes[m].count <= 1
  {
    EveryStateIsOk(states, steps, i);
    var k := states[i];
    assert TaskOk(k, t) && MutexOk(k, m);
    assert HeldBy(k.mutexes, t) == set n | n in k.mutexes && k.mutexes[n].holder == Some(t);
    if forall n :: n in k.mutexes ==> k.mutexes[n].holder != Some(t) {
      assert HeldBy(k.mutexes, t) == {};
    }
  }

  /** The takes of a recursive mutex in the first i steps, less its gives. */
  function NetTakes(states: seq<System>, steps: seq<Step>, i: nat, m: MutexId): int
    requires i <= |steps| <= |states|
  {
    if i == 0 then 0 else NetTakes(states, steps, i - 1, m) + Effect(states[i - 1], steps[i - 1], m)
  }

  function Effect(k: System, s: Step, m: MutexId): int {
    match s
    case Take(t) => if t in k.places && k.places[t].Contending? && k.places[t].mutex == m then 1 else 0
    case TakeAgain(_, n) => if n == m then 1 else 0
    case Give(_, n) => if n == m then -1 else 0
    case _ => 0
  }

  lemma CallsFollow(k: System, s: Step, k': System, m: MutexId)
    requires Ok(k) && Follows(k, s, k') && m in k.mutexes
    ensures m in k'.mutexes && k'.mutexes[m].recursive == k.mutexes[m].recursive
    ensures k.mutexes[m].recursive ==> k'.mutexes[m].recursiveCalls == k.mutexes[m].recursiveCalls + Effect(k, s, m)
  {
    hide Ok, IsReady, Enqueue, Dequeue, HighestWaiting, Inherit, Disinherit, DisinheritAfterTimeout, IncrementHeld;
    CountedIn(k, m);
  }

  /** A recursive mutex is free exactly when it has been given as often as taken. */
  lemma {:induction false} FreedByTheLastGive(states: seq<System>, steps: seq<Step>, i: nat, m: MutexId)
    requires IsRun(states, steps) && i < |states| && m in states[0].mutexes && states[0].mutexes[m].recursive
    ensures m in states[i].mutexes && states[i].mutexes[m].recursive
    ensures states[i].mutexes[m].recursiveCalls == NetTakes(states, steps, i, m)
    ensures states[i].mutexes[m].holder.None? <==> NetTakes(states, steps, i, m) == 0
  {
    hide Ok, Follows, TaskOk, Queued, Bounded, Effect;
    EveryStateIsOk(states, steps, i);
    if i > 0 {
      EveryStateIsOk(states, steps, i - 1);
      FreedByTheLastGive(states, steps, i - 1, m);
      CallsFollow(states[i - 1], steps[i - 1], states[i], m);
    }
    CountedIn(states[i], m);
  }

  lemma CountedIn(k: System, m: MutexId)
    requires Ok(k) && m in k.mutexes
    ensures Counted(k.mutexes[m])
  {
    assert MutexOk(k, m);
  }

  // ----- what is restored -----

  lemma BaseStays(k: System, s: Step, k': System)
    requires Follows(k, s, k')
    ensures k'.tasks.Keys == k.tasks.Keys
    ensures forall t :: t in k.tasks ==> k'.tasks[t].basePriority == k.tasks[t].basePriority
  {
    hide Enqueue, Dequeue, HighestWaiting, IsReady;
  }

  /** Inheritance never touches a base priority: in every state of every run each task
      has the base priority that it had at first. */
  lemma {:induction false} BasePriorityIsConstant(states: seq<System>, steps: seq<Step>, i: nat, t: Task)
    requires IsRun(states, steps) && i < |states| && t in states[0].tasks
    ensures t in states[i].tasks && states[i].tasks[t].basePriority == states[0].tasks[t].basePriority
  {
    hide Initial;
    if i > 0 {
      BasePriorityIsConstant(states, steps, i - 1, t);
      assert Follows(states[i - 1], steps[i - 1], states[i]);
      BaseStays(states[i - 1], steps[i - 1], states[i]);
    }
  }

  /** So whatever a task has inherited, it is back at the priority that it had at first
      whenever it holds no mutex. */
  lemma PriorityIsRestored(states: seq<System>, steps: seq<Step>, i: nat, t: Task)
    requires IsRun(states, steps) && i < |states| && t in states[0].tasks
    requires forall m :: m in states[i].mutexes ==> states[i].mutexes[m].holder != Some(t)
    ensures t in states[i].tasks && states[i].tasks[t].priority == states[0].tasks[t].priority
  {
    EveryStateIsOk(states, steps, i);
    BasePriorityIsConstant(states, steps, i, t);
    assert TaskOk(states[i], t) && HeldBy(states[i].mutexes, t) == {};
  }

  // ----- who holds a mutex -----

  /** Who has taken the mutex last and not freed it since, as the first i steps tell. */
  function LastTaker(states: seq<System>, steps: seq<Step>, i: nat, m: MutexId): Option<Task>
    requires i <= |steps| <= |states|
  {
    if i == 0 then None
    else
      var k := states[i - 1];
      match steps[i - 1]
      case Take(t) =>
        if t in k.places && k.places[t].Contending? && k.places[t].mutex == m then Some(t)
        else LastTaker(states, steps, i - 1, m)
      case Give(_, n) =>
        if n == m && m in k.mutexes && (!k.mutexes[m].recursive || NetTakes(states, steps, i, m) == 0) then None
        else LastTaker(states, steps, i - 1, m)
      case _ => LastTaker(states, steps, i - 1, m)
  }

  lemma HolderFollows(k: System, s: Step, k': System, m: MutexId)
    requires Ok(k) && Follows(k, s, k') && m in k.mutexes
    ensures s.task in k.places && m in k'.mutexes && k'.mutexes[m].recursive == k.mutexes[m].recursive
    ensures k'.mutexes[m].holder ==
            match s
            case Take(t) => if k.places[t].Contending? && k.places[t].mutex == m then Some(t) else k.mutexes[m].holder
            case Give(_, n) =>
              if n == m && (!k.mutexes[m].recursive || k.mutexes[m].recursiveCalls == 1) then None
              else k.mutexes[m].holder
            case _ => k.mutexes[m].holder
  {
    hide Ok, IsReady, Enqueue, Dequeue, HighestWaiting, Inherit, Disinherit, DisinheritAfterTimeout, IncrementHeld;
    CountedIn(k, m);
  }

  /** A mutex belongs to the task that took it last, until that task frees it. */
  lemma {:induction false} HeldByItsTaker(states: seq<System>, steps: seq<Step>, i: nat, m: MutexId)
    requires IsRun(states, steps) && i < |states| && m in states[0].mutexes
    ensures m in states[i].mutexes && states[i].mutexes[m].recursive == states[0].mutexes[m].recursive
    ensures states[i].mutexes[m].holder == LastTaker(states, steps, i, m)
  {
    hide Ok, Follows, Effect, NetTakes;
    if i > 0 {
      EveryStateIsOk(states, steps, i - 1);
      HeldByItsTaker(states, steps, i - 1, m);
      assert Follows(states[i - 1], steps[i - 1], states[i]);
      HolderFollows(states[i - 1], steps[i - 1], states[i], m);
      if states[0].mutexes[m].recursive {
        FreedByTheLastGive(states, steps, i - 1, m);
        FreedByTheLastGive(states, steps, i, m);
        GiveCounts(states, steps, i, m);
      }
    }
  }

  lemma GiveCounts(states: seq<System>, steps: seq<Step>, i: nat, m: MutexId)
    requires 0 < i <= |steps| <= |states|
    ensures steps[i - 1].Give? && steps[i - 1].mutex == m ==>
              NetTakes(states, steps, i, m) == NetTakes(states, steps, i - 1, m) - 1
  {
  }

  // ----- when a wait begins and ends -----

  lemma OnlyBlockingWaits(k: System, s: Step, k': System, t: Task)
    requires Follows(k, s, k') && s != Block(t) && t in k.places && !k.places[t].Blocked?
    ensures t in k'.places && !k'.places[t].Blocked?
  {
    hide IsReady, Enqueue, Dequeue, HighestWaiting, Inherit, InheritanceOccurred, Disinherit, DisinheritAfterTimeout,
      IncrementHeld;
  }

  lemma BlockFacts(k: System, t: Task)
    requires Ok(k) && Enabled(k, Block(t))
    ensures k.places[t].mutex in k.mutexes && k.mutexes[k.places[t].mutex].holder.Some?
    ensures t !in k.mutexes[k.places[t].mutex].waiters
    ensures var h := k.mutexes[k.places[t].mutex].holder.value;
            h in k.tasks && h in k.places && k.tasks[h].mutexesHeld > 0
  {
    hide MutexOk, IsReady;
    CountedIn(k, k.places[t].mutex);
    HoldersHold(k, k.places[t].mutex);
    WaitersAreBlocked(k, k.places[t].mutex, t);
  }

  /** A task waits from when it blocks on the mutex that it contends for; the priority of
      the holder is then the higher of the two, and the wait is marked if the priority or
      the base of the holder was lower. */
  lemma WaitBeginsExactlyWhen(k: System, s: Step, k': System, t: Task)
    requires Ok(k) && Follows(k, s, k') && t in k.tasks && t in k.places && !k.places[t].Blocked?
    ensures t in k'.places && (k'.places[t].Blocked? <==> s == Block(t))
    ensures s == Block(t) ==>
              && k.places[t].Contending? && k.places[t].mutex in k.mutexes && k.places[t].mutex in k'.mutexes
              && var m := k.places[t].mutex;
                 && t in k'.mutexes[m].waiters && k.mutexes[m].holder.Some?
                 && var h, mine := k.mutexes[m].holder.value, k.tasks[t].priority;
                    && h in k.tasks && h in k'.tasks
                    && k'.places[t] == Blocked(m, k.tasks[h].priority < mine || k.tasks[h].basePriority < mine)
                    && k'.tasks[h].priority == if k.tasks[h].priority < mine then mine else k.tasks[h].priority
  {
    hide Ok, Apply, IsReady;
    if s == Block(t) {
      BlockFacts(k, t);
      BlockedState(k, k', k.mutexes[k.places[t].mutex].holder.value, t, k.places[t].mutex);
    } else {
      OnlyBlockingWaits(k, s, k', t);
    }
  }

  lemma OtherStepsLeaveWaiters(k: System, s: Step, k': System, t: Task)
    requires Follows(k, s, k') && s.task != t && !s.Give? && t in k.places
    ensures t in k'.places && k'.places[t] == k.places[t]
  {
    hide IsReady, Enqueue, Dequeue, HighestWaiting, Inherit, InheritanceOccurred, Disinherit, DisinheritAfterTimeout,
      IncrementHeld;
  }

  lemma WaitersOnlyTimeOut(k: System, s: Step, k': System)
    requires Follows(k, s, k') && k.places[s.task].Blocked?
    ensures s == Timeout(s.task) && s.task in k'.places
    ensures k'.places[s.task] == Contending(k.places[s.task].mutex, k.places[s.task].inherited)
  {
    hide IsReady, Dequeue;
  }

  lemma GivingWakesTheFirst(k: System, s: Step, k': System, t: Task)
    requires Follows(k, s, k') && s.Give? && s.task != t && t in k.places && k.places[t].Blocked?
    requires Counted(k.mutexes[s.mutex])
    requires t in k.mutexes[s.mutex].waiters ==> k.places[t].mutex == s.mutex
    ensures var mutex := k.mutexes[s.mutex];
            && t in k'.places
            && k'.places[t] ==
               if mutex.waiters != [] && mutex.waiters[0] == t && (!mutex.recursive || mutex.recursiveCalls == 1)
               then Contending(s.mutex, k.places[t].inherited) else k.places[t]
  {
    hide IsReady, Disinherit;
  }

  /** The wait ends with its time, or when the mutex is freed and the task is the first
      in line; the task then contends for the mutex. */
  lemma WaitEndsExactlyWhen(k: System, s: Step, k': System, t: Task)
    requires Ok(k) && Follows(k, s, k') && t in k.tasks && t in k.places && k.places[t].Blocked?
    requires k.places[t].mutex in k.mutexes
    ensures var mutex := k.mutexes[k.places[t].mutex];
            && t in k'.places
            && (k'.places[t] != k.places[t] <==>
                  || s == Timeout(t)
                  || (s.Give? && s.mutex == k.places[t].mutex && mutex.waiters != [] && mutex.waiters[0] == t
                      && (!mutex.recursive || mutex.recursiveCalls == 1)))
            && (k'.places[t] != k.places[t] ==>
                  k'.places[t] == Contending(k.places[t].mutex, k.places[t].inherited))
  {
    hide Ok, Apply, IsReady;
    if s.task == t {
      WaitersOnlyTimeOut(k, s, k');
    } else if s.Give? {
      CountedIn(k, s.mutex);
      WaitersAreBlocked(k, s.mutex, t);
      GivingWakesTheFirst(k, s, k', t);
    } else {
      OtherStepsLeaveWaiters(k, s, k', t);
    }
  }

  // ----- no more than is owed -----

  /** A task on whose account the holder of the mutex may run above its base: it waits,
      or its wait has timed out and the inheritance it caused is still to be undone. */
  ghost predicate Creditor(k: System, m: MutexId, w: Task)
    requires m in k.mutexes
  {
    && w in k.tasks && w in k.places
    && (w in k.mutexes[m].waiters || k.places[w] == Contending(m, true) || k.places[w] == GivingUp(m))
  }

  /** A task above its base priority has the priority of a creditor of a mutex it holds. */
  ghost predicate Owed(k: System, h: Task)
    requires h in k.tasks
  {
    || k.tasks[h].priority == k.tasks[h].basePriority
    || exists m, w ::
         && m in k.mutexes && k.mutexes[m].holder == Some(h)
         && Creditor(k, m, w) && k.tasks[w].priority == k.tasks[h].priority
  }

  /** A waiter that is more urgent than the holder by itself knows that the holder has
      inherited. */
  ghost predicate Flagged(k: System, h: Task)
    requires h in k.tasks
  {
    forall m, w :: m in k.mutexes && k.mutexes[m].holder == Some(h) && w in k.mutexes[m].waiters ==>
      w in k.tasks && w in k.places && k.places[w].Blocked? && k.tasks[w].priority > k.tasks[h].basePriority ==>
        k.places[w].inherited
  }

  ghost predicate Solvent(k: System, h: Task) {
    h in k.tasks && h in k.places && Owed(k, h) && Flagged(k, h)
  }

  /** The task, its mutexes and their creditors stay as they are, but that a creditor
      may begin to undo the inheritance. */
  ghost predicate Unconcerned(k: System, k': System, h: Task)
    requires h in k.tasks
  {
    && k'.tasks.Keys == k.tasks.Keys && k'.places.Keys == k.places.Keys
    && h in k'.tasks && k'.tasks[h].basePriority == k.tasks[h].basePriority
    && k'.tasks[h].priority == k.tasks[h].priority
    && (forall m :: m in k'.mutexes && k'.mutexes[m].holder == Some(h) ==>
          && m in k.mutexes && k.mutexes[m].holder == Some(h) && k'.mutexes[m].waiters == k.mutexes[m].waiters)
    && (forall m :: m in k.mutexes && k.mutexes[m].holder == Some(h) ==>
          m in k'.mutexes && k'.mutexes[m].holder == Some(h))
    && (forall m, w :: m in k.mutexes && k.mutexes[m].holder == Some(h) && Creditor(k, m, w) ==>
          && k'.tasks[w].priority == k.tasks[w].priority
          && (k'.places[w] == k.places[w]
              || (k.places[w] == Contending(m, true) && k'.places[w] == GivingUp(m))))
  }

  lemma UnconcernedStays(k: System, k': System, h: Task)
    requires Solvent(k, h) && Unconcerned(k, k', h)
    ensures Solvent(k', h)
  {
    if k.tasks[h].priority != k.tasks[h].basePriority {
      var m, w :| m in k.mutexes && k.mutexes[m].holder == Some(h)
                  && Creditor(k, m, w) && k.tasks[w].priority == k.tasks[h].priority;
      assert Creditor(k', m, w);
    }
    forall m, w | m in k'.mutexes && k'.mutexes[m].holder == Some(h) && w in k'.mutexes[m].waiters
      && w in k'.tasks && w in k'.places && k'.places[w].Blocked? && k'.tasks[w].priority > k'.tasks[h].basePriority
      ensures k'.places[w].inherited
    {
      assert Creditor(k, m, w);
    }
  }

  /** What is known of the creditors of a task. */
  ghost predicate Credible(k: System, h: Task) {
    forall m, w :: m in k.mutexes && k.mutexes[m].holder == Some(h) && Creditor(k, m, w) ==>
      && k.tasks[w].mutexesHeld == 0 && w != h && k.mutexes[m].count == 0
      && ((k.places[w].Blocked? && k.places[w].mutex == m)
          || k.places[w] == Contending(m, true) || k.places[w] == GivingUp(m))
  }

  lemma CreditorsAreCredible(k: System, h: Task)
    requires Ok(k)
    ensures Credible(k, h)
  {
    forall m, w | m in k.mutexes && k.mutexes[m].holder == Some(h) && Creditor(k, m, w)
      ensures k.tasks[w].mutexesHeld == 0 && w != h && k.mutexes[m].count == 0
      ensures (k.places[w].Blocked? && k.places[w].mutex == m)
              || k.places[w] == Contending(m, true) || k.places[w] == GivingUp(m)
    {
      TaskFacts(k, w);
      HoldersHold(k, m);
      CountedIn(k, m);
    }
  }

  lemma TakeKeepsSolvent(k: System, k': System, h: Task)
    requires Ok(k) && Ok(k') && Follows(k, Take(h), k') && h in k.tasks && k.tasks[h].mutexesHeld == 0
    ensures Solvent(k', h)
  {
    var m := k.places[h].mutex;
    TaskFacts(k, h);
    HoldersHold(k', m);
    WaitersAreBlocked(k', m, h);
    hide Ok, IsReady;
    assert k'.tasks[h].mutexesHeld == 1 && k'.tasks[h].priority == k'.tasks[h].basePriority;
  }

  lemma TaskFacts(k: System, t: Task)
    requires Ok(k) && t in k.tasks
    ensures t in k.places && (k.tasks[t].mutexesHeld == 0 ==> k.tasks[t].priority == k.tasks[t].basePriority)
    ensures k.places[t].Blocked? || k.places[t].GivingUp? || (k.places[t].Contending? && k.places[t].inherited) ==>
              k.tasks[t].mutexesHeld == 0
    ensures k.places[t].Blocked? || k.places[t].Contending? || k.places[t].GivingUp? ==>
              k.places[t].mutex in k.mutexes && Queued(k, k.places[t].mutex) && Counted(k.mutexes[k.places[t].mutex])
    ensures forall m :: m in k.mutexes ==>
              (t in k.mutexes[m].waiters <==> k.places[t].Blocked? && k.places[t].mutex == m)
  {
    assert TaskOk(k, t);
    forall m | m in k.mutexes ensures t in k.mutexes[m].waiters <==> k.places[t].Blocked? && k.places[t].mutex == m {
      WaitersAreBlocked(k, m, t);
    }
    if k.places[t].Blocked? || k.places[t].Contending? || k.places[t].GivingUp? {
      assert MutexOk(k, k.places[t].mutex);
    }
  }

  /** A task blocks on the mutex of the holder. */
  lemma BlockKeepsSolvent(k: System, k': System, h: Task, t: Task, m: MutexId)
    requires Ok(k) && Follows(k, Block(t), k') && Solvent(k, h) && k.tasks[h].mutexesHeld <= 1
    requires k.places[t].Contending? && k.places[t].mutex == m && m in k.mutexes && k.mutexes[m].holder == Some(h)
    ensures Solvent(k', h)
  {
    TaskFacts(k, t);
    HoldersHold(k, m);
    BaseIsLeast(k, h);
    BlockedState(k, k', h, t, m);
    hide Ok, Follows, Creditor;
    BlockedIsOwed(k, k', h, t, m);
    hide Owed;
    BlockedIsFlagged(k, k', h, t, m);
  }

  ghost predicate BlockedOn(k: System, k': System, h: Task, t: Task, m: MutexId) {
    && h in k.tasks && t in k.tasks && h in k.places && t in k.places && m in k.mutexes && t != h
    && k.mutexes[m].holder == Some(h)
    && var mine := k.tasks[t].priority;
       && k'.tasks == k.tasks[h := k.tasks[h].(priority := Max(k.tasks[h].priority, mine))]
       && k'.places == k.places[t := Blocked(m, k.tasks[h].priority < mine || k.tasks[h].basePriority < mine)]
       && m in k'.mutexes && k'.mutexes == k.mutexes[m := k'.mutexes[m]] && k'.mutexes[m].holder == Some(h)
       && forall w :: w in k'.mutexes[m].waiters <==> w in k.mutexes[m].waiters || w == t
  }

  lemma BlockedState(k: System, k': System, h: Task, t: Task, m: MutexId)
    requires Ok(k) && Follows(k, Block(t), k') && h in k.tasks && h in k.places && k.tasks[h].mutexesHeld > 0
    requires k.places[t].Contending? && k.places[t].mutex == m && m in k.mutexes && k.mutexes[m].holder == Some(h)
    requires t !in k.mutexes[m].waiters
    ensures BlockedOn(k, k', h, t, m)
  {
    hide Ok, Enqueue, IsReady, Keys, Key;
    EnqueueMembersOf(k, k', t, m, h);
  }

  lemma BlockedIsOwed(k: System, k': System, h: Task, t: Task, m: MutexId)
    requires Solvent(k, h) && BlockedOn(k, k', h, t, m)
    requires forall n :: n in k.mutexes && k.mutexes[n].holder == Some(h) ==> n == m
    ensures Owed(k', h)
  {
    if k'.tasks[h].priority != k.tasks[h].priority {
      assert Creditor(k', m, t);
    } else if k.tasks[h].priority != k.tasks[h].basePriority {
      var n, w :| n in k.mutexes && k.mutexes[n].holder == Some(h)
                  && Creditor(k, n, w) && k.tasks[w].priority == k.tasks[h].priority;
      assert n == m && k'.tasks[w].priority == k.tasks[w].priority;
      assert w in k'.places && (w == t || k'.places[w] == k.places[w]);
      assert Creditor(k', m, w);
    }
  }

  lemma BlockedIsFlagged(k: System, k': System, h: Task, t: Task, m: MutexId)
    requires BlockedOn(k, k', h, t, m) && Flagged(k, h) && k.tasks[h].basePriority <= k.tasks[h].priority
    requires h !in k.mutexes[m].waiters
    requires forall n :: n in k.mutexes && k.mutexes[n].holder == Some(h) ==> n == m
    ensures h in k'.tasks && Flagged(k', h)
  {
    forall n, w | n in k'.mutexes && k'.mutexes[n].holder == Some(h) && w in k'.mutexes[n].waiters
      && w in k'.tasks && w in k'.places && k'.places[w].Blocked? && k'.tasks[w].priority > k'.tasks[h].basePriority
      ensures k'.places[w].inherited
    {
      assert n == m;
    }
  }

  lemma EnqueueMembersOf(k: System, k': System, t: Task, m: MutexId, h: Task)
    requires Ok(k) && Follows(k, Block(t), k') && k.places[t].mutex == m && m in k.mutexes
    requires k.mutexes[m].holder == Some(h) && h in k.tasks && t != h && t !in k.mutexes[m].waiters
    ensures forall w :: w in k'.mutexes[m].waiters <==> w in k.mutexes[m].waiters || w == t
  {
    var known := k.(tasks := k.tasks[h := Inherit(k.tasks[h], k.tasks[t].priority)]);
    assert MutexOk(k, m);
    var keys := Keys(k.mutexes[m].waiters, known.tasks, k.maxPriorities);
    var pos := InsertPosition(keys, Key(t, known.tasks, k.maxPriorities));
    InsertAtMembers(Ring(k.mutexes[m].waiters, 0), t, pos);
  }

  /** A waiter for the mutex of the holder times out. */
  lemma TimeoutKeepsSolvent(k: System, k': System, h: Task, t: Task, m: MutexId)
    requires Ok(k) && Follows(k, Timeout(t), k') && Solvent(k, h) && k.tasks[h].mutexesHeld <= 1
    requires k.places[t].Blocked? && k.places[t].mutex == m && m in k.mutexes && k.mutexes[m].holder == Some(h)
    ensures Solvent(k', h)
  {
    hide Ok;
    TaskFacts(k, t);
    HoldersHold(k, m);
    BaseIsLeast(k, h);
    DequeueMembers(k, k.mutexes[m].waiters, t);
    TimedOutState(k, k', h, t, m);
    hide Follows, Solvent, Ascending, Distinct, Keys;
    TimedOutIsSolvent(k, k', h, t, m);
  }

  ghost predicate TimedOutOn(k: System, k': System, h: Task, t: Task, m: MutexId) {
    && h in k.tasks && t in k.tasks && h in k.places && t in k.places && m in k.mutexes && m in k'.mutexes
    && k.places[t].Blocked? && k.mutexes[m].holder == k'.mutexes[m].holder == Some(h)
    && k'.tasks == k.tasks && k'.places == k.places[t := Contending(m, k.places[t].inherited)]
    && k'.mutexes == k.mutexes[m := k'.mutexes[m]]
    && forall w :: w in k'.mutexes[m].waiters <==> w in k.mutexes[m].waiters && w != t
  }

  lemma TimedOutState(k: System, k': System, h: Task, t: Task, m: MutexId)
    requires Follows(k, Timeout(t), k') && h in k.tasks && h in k.places
    requires k.places[t].Blocked? && k.places[t].mutex == m && m in k.mutexes && k.mutexes[m].holder == Some(h)
    requires forall w :: w in Dequeue(k.mutexes[m].waiters, t) <==> w in k.mutexes[m].waiters && w != t
    ensures TimedOutOn(k, k', h, t, m)
  {
    hide Dequeue, IsReady;
  }

  lemma TimedOutIsSolvent(k: System, k': System, h: Task, t: Task, m: MutexId)
    requires TimedOutOn(k, k', h, t, m) && Solvent(k, h) && t in k.mutexes[m].waiters
    requires forall n :: n in k.mutexes && k.mutexes[n].holder == Some(h) ==> n == m
    requires k.tasks[h].basePriority <= k.tasks[h].priority
    ensures Solvent(k', h)
  {
    if k.tasks[h].priority != k.tasks[h].basePriority {
      var n, w :| n in k.mutexes && k.mutexes[n].holder == Some(h)
                  && Creditor(k, n, w) && k.tasks[w].priority == k.tasks[h].priority;
      assert n == m && Creditor(k', m, w);
    }
  }

  lemma BaseIsLeast(k: System, t: Task)
    requires Ok(k) && t in k.tasks
    ensures k.tasks[t].basePriority <= k.tasks[t].priority
  {
    assert t in k.places && TaskOk(k, t);
  }

  /** The clean-up of a task that has timed out on the mutex of the holder. */
  lemma CleanupKeepsSolvent(k: System, k': System, h: Task, t: Task, m: MutexId)
    requires Ok(k) && Follows(k, Cleanup(t), k') && Solvent(k, h) && k.tasks[h].mutexesHeld <= 1
    requires k.places[t] == GivingUp(m) && m in k.mutexes && k.mutexes[m].holder == Some(h)
    ensures Solvent(k', h)
  {
    hide Ok, Solvent;
    CleanupAssertionsHold(k, t, m);
    HoldersHold(k, m);
    NoExcessAfterCleanup(k, t, m);
    WaitersAreBlocked(k, m, t);
    WaitersAreBlocked(k, m, h);
    TaskFacts(k, h);
    CleanedUpState(k, k', h, t, m);
    hide Follows, HighestWaiting, IsReady, AfterCleanup;
    CleanedUpIsSolvent(k, k', h, t, m);
  }

  ghost predicate CleanedUp(k: System, k': System, h: Task, t: Task, m: MutexId) {
    && h in k.tasks && h in k.places && t in k.places && m in k.mutexes && t != h
    && k'.mutexes == k.mutexes && k.mutexes[m].holder == Some(h) && k'.places == k.places[t := Running]
    && h in k'.tasks && k'.tasks == k.tasks[h := k.tasks[h].(priority := k'.tasks[h].priority)]
  }

  lemma CleanedUpState(k: System, k': System, h: Task, t: Task, m: MutexId)
    requires Follows(k, Cleanup(t), k') && h in k.tasks && h in k.places && t != h
    requires k.places[t] == GivingUp(m) && m in k.mutexes && k.mutexes[m].holder == Some(h)
    ensures k' == AfterCleanup(k, t, m) && CleanedUp(k, k', h, t, m)
  {
    hide HighestWaiting, IsReady;
  }

  lemma CleanedUpIsSolvent(k: System, k': System, h: Task, t: Task, m: MutexId)
    requires CleanedUp(k, k', h, t, m) && Solvent(k, h)
    requires forall n :: n in k.mutexes && k.mutexes[n].holder == Some(h) ==> n == m
    requires t !in k.mutexes[m].waiters && h !in k.mutexes[m].waiters
    requires forall w :: w in k.mutexes[m].waiters ==> w in k.tasks && w in k.places
    requires k'.tasks[h].priority == k'.tasks[h].basePriority
             || exists w ::
                  w in k'.mutexes[m].waiters && w in k'.tasks && k'.tasks[w].priority == k'.tasks[h].priority
    ensures Solvent(k', h)
  {
    if k'.tasks[h].priority != k'.tasks[h].basePriority {
      var w :| w in k'.mutexes[m].waiters && w in k'.tasks && k'.tasks[w].priority == k'.tasks[h].priority;
      assert Creditor(k', m, w);
    }
  }

  /** The task itself takes a step that leaves its only mutex with it. */
  lemma OwnStepIsUnconcerned(k: System, s: Step, k': System, h: Task)
    requires Follows(k, s, k') && s.task == h && k.tasks.Keys == k.places.Keys && Credible(k, h)
    requires k.tasks[h].mutexesHeld == 1 && k'.tasks[h].mutexesHeld == 1
    requires k.places[h].Contending? ==> !k.places[h].inherited
    requires !k.places[h].Blocked? && !k.places[h].GivingUp?
    ensures Unconcerned(k, k', h)
  {
    hide IsReady, Enqueue, Dequeue, HighestWaiting;
  }
  /** The mutex that a step is about. */
  function MutexOf(k: System, s: Step): Option<MutexId> {
    if s.Give? then Some(s.mutex)
    else if s.task in k.places && (s.Block? || s.Timeout? || s.Cleanup?)
            && (k.places[s.task].Contending? || k.places[s.task].Blocked? || k.places[s.task].GivingUp?)
    then Some(k.places[s.task].mutex)
    else None
  }

  lemma OtherStepIsUnconcerned(k: System, s: Step, k': System, h: Task)
    requires Follows(k, s, k') && s.task != h && k.tasks.Keys == k.places.Keys && Credible(k, h) && h in k.tasks
    requires s.Contend? || s.GiveUp? || s.Sleep? || s.Wake? || s.TakeAgain?
    ensures Unconcerned(k, k', h)
  {
    hide IsReady, Enqueue, Dequeue, HighestWaiting;
  }

  lemma TakeElsewhere(k: System, s: Step, k': System, h: Task)
    requires Follows(k, s, k') && s.task != h && k.tasks.Keys == k.places.Keys && Credible(k, h) && h in k.tasks
    requires s.Take? && k.places[s.task].Contending? && k.places[s.task].mutex in k.mutexes
    requires k.mutexes[k.places[s.task].mutex].holder.None?
    ensures Unconcerned(k, k', h)
  {
    hide IsReady, Enqueue, Dequeue, HighestWaiting;
  }

  lemma BlockElsewhere(k: System, s: Step, k': System, h: Task, m: MutexId)
    requires Follows(k, s, k') && s.task != h && k.tasks.Keys == k.places.Keys && Credible(k, h) && h in k.tasks
    requires s.Block? && MutexOf(k, s) == Some(m) && m in k.mutexes && k.mutexes[m].holder.Some?
    requires k.mutexes[m].holder != Some(h) && k.mutexes[m].holder.value in k.tasks
    requires k.tasks[k.mutexes[m].holder.value].mutexesHeld > 0
    ensures Unconcerned(k, k', h)
  {
    hide IsReady, Enqueue, Dequeue, HighestWaiting;
  }

  lemma TimeoutElsewhere(k: System, s: Step, k': System, h: Task, m: MutexId)
    requires Follows(k, s, k') && s.task != h && k.tasks.Keys == k.places.Keys && Credible(k, h) && h in k.tasks
    requires s.Timeout? && MutexOf(k, s) == Some(m) && m in k.mutexes && k.mutexes[m].holder != Some(h)
    ensures Unconcerned(k, k', h)
  {
    hide IsReady, Enqueue, Dequeue, HighestWaiting;
  }

  lemma CleanupElsewhere(k: System, s: Step, k': System, h: Task, m: MutexId)
    requires Follows(k, s, k') && s.task != h && k.tasks.Keys == k.places.Keys && Credible(k, h) && h in k.tasks
    requires s.Cleanup? && MutexOf(k, s) == Some(m) && m in k.mutexes && k.mutexes[m].holder != Some(h)
    requires k.mutexes[m].holder.Some? && k.mutexes[m].holder.value in k.tasks ==>
               k.tasks[k.mutexes[m].holder.value].mutexesHeld > 0
    ensures Unconcerned(k, k', h)
  {
    hide IsReady, Enqueue, Dequeue, HighestWaiting;
  }

  lemma GiveElsewhere(k: System, s: Step, k': System, h: Task, m: MutexId)
    requires Follows(k, s, k') && s.task != h && k.tasks.Keys == k.places.Keys && Credible(k, h) && h in k.tasks
    requires s.Give? && s.mutex == m && m in k.mutexes && k.mutexes[m].holder == Some(s.task)
    requires forall w :: w in k.mutexes[m].waiters ==> w in k.tasks && k.places[w].Blocked? && k.places[w].mutex == m
    ensures Unconcerned(k, k', h)
  {
    hide IsReady, Enqueue, Dequeue, HighestWaiting;
  }
  lemma IdleIsSolvent(k: System, h: Task)
    requires Ok(k) && h in k.tasks && k.tasks[h].mutexesHeld == 0
    ensures Solvent(k, h)
  {
    TaskFacts(k, h);
    forall m | m in k.mutexes ensures k.mutexes[m].holder != Some(h) {
      if k.mutexes[m].holder == Some(h) {
        HoldersHold(k, m);
      }
    }
    hide Ok;
  }

  lemma OwnStepKeepsSolvent(k: System, s: Step, k': System, h: Task)
    requires Ok(k) && Ok(k') && Follows(k, s, k') && Solvent(k, h) && s.task == h
    requires k.tasks[h].mutexesHeld == 1 && h in k'.tasks && k'.tasks[h].mutexesHeld == 1
    ensures Solvent(k', h)
  {
    TaskFacts(k, h);
    CreditorsAreCredible(k, h);
    hide Ok, Follows, Credible, Solvent;
    OwnStepIsUnconcerned(k, s, k', h);
    UnconcernedStays(k, k', h);
  }

  lemma OtherStepKeepsSolvent(k: System, s: Step, k': System, h: Task)
    requires Ok(k) && Follows(k, s, k') && Solvent(k, h) && s.task != h && k.tasks[h].mutexesHeld <= 1
    ensures Solvent(k', h)
  {
    StepFacts(k, s);
    CreditorsAreCredible(k, h);
    hide Ok, Follows, Credible, Unconcerned, Owed, Flagged;
    match s
    case Block(t) =>
      if k.mutexes[k.places[t].mutex].holder == Some(h) {
        BlockKeepsSolvent(k, k', h, t, k.places[t].mutex);
      } else {
        BlockElsewhere(k, s, k', h, k.places[t].mutex);
        UnconcernedStays(k, k', h);
      }
    case Timeout(t) =>
      if k.mutexes[k.places[t].mutex].holder == Some(h) {
        TimeoutKeepsSolvent(k, k', h, t, k.places[t].mutex);
      } else {
        TimeoutElsewhere(k, s, k', h, k.places[t].mutex);
        UnconcernedStays(k, k', h);
      }
    case Cleanup(t) =>
      if k.mutexes[k.places[t].mutex].holder == Some(h) {
        CleanupKeepsSolvent(k, k', h, t, k.places[t].mutex);
      } else {
        CleanupElsewhere(k, s, k', h, k.places[t].mutex);
        UnconcernedStays(k, k', h);
      }
    case Give(_, m) =>
      GiveElsewhere(k, s, k', h, m);
      UnconcernedStays(k, k', h);
    case Take(_) =>
      TakeElsewhere(k, s, k', h);
      UnconcernedStays(k, k', h);
    case _ =>
      OtherStepIsUnconcerned(k, s, k', h);
      UnconcernedStays(k, k', h);
  }

  /** What the invariant says of the task of a step and its mutex. */
  lemma StepFacts(k: System, s: Step)
    requires Ok(k) && Enabled(k, s)
    ensures k.tasks.Keys == k.places.Keys
    ensures s.Take? ==> k.mutexes[k.places[s.task].mutex].holder.None?
    ensures s.Block? || s.Timeout? || s.Cleanup? ==>
              && MutexOf(k, s) == Some(k.places[s.task].mutex) && k.places[s.task].mutex in k.mutexes
              && (s.Block? ==> k.mutexes[k.places[s.task].mutex].holder.Some?)
              && (k.mutexes[k.places[s.task].mutex].holder.Some? ==>
                    var holder := k.mutexes[k.places[s.task].mutex].holder.value;
                    holder in k.tasks && k.tasks[holder].mutexesHeld > 0)
    ensures s.Give? ==>
              forall w :: w in k.mutexes[s.mutex].waiters ==>
                w in k.tasks && k.places[w].Blocked? && k.places[w].mutex == s.mutex
  {
    if s.Take? || s.Block? || s.Timeout? || s.Cleanup? {
      var m := k.places[s.task].mutex;
      CountedIn(k, m);
      if k.mutexes[m].holder.Some? {
        HoldersHold(k, m);
      }
    }
    if s.Give? {
      assert MutexOk(k, s.mutex);
    }
  }

  lemma StepKeepsSolvent(k: System, s: Step, k': System, h: Task)
    requires Ok(k) && Ok(k') && Follows(k, s, k') && Solvent(k, h) && h in k.tasks
    requires k.tasks[h].mutexesHeld <= 1 && h in k'.tasks && k'.tasks[h].mutexesHeld <= 1
    ensures Solvent(k', h)
  {
    hide Ok, Follows, Solvent;
    if k'.tasks[h].mutexesHeld == 0 {
      IdleIsSolvent(k', h);
    } else if s.task != h {
      OtherStepKeepsSolvent(k, s, k', h);
    } else if k.tasks[h].mutexesHeld == 1 {
      OwnStepKeepsSolvent(k, s, k', h);
    } else {
      OnlyTakesRaise(k, s, k', h);
      TakeKeepsSolvent(k, k', h);
    }
  }

  lemma OnlyTakesRaise(k: System, s: Step, k': System, h: Task)
    requires Follows(k, s, k') && h in k.tasks && h in k'.tasks && k'.tasks[h].mutexesHeld > k.tasks[h].mutexesHeld
    requires s.task == h
    ensures s == Take(h)
  {
    hide IsReady, Enqueue, Dequeue, HighestWaiting;
  }

  lemma {:induction false} StaysSolvent(states: seq<System>, steps: seq<Step>, i: nat, h: Task)
    requires IsRun(states, steps) && i < |states| && h in states[0].tasks
    requires forall j :: 0 <= j <= i ==> h in states[j].tasks && states[j].tasks[h].mutexesHeld <= 1
    ensures Solvent(states[i], h)
  {
    hide Ok, Follows, Solvent;
    EveryStateIsOk(states, steps, i);
    if i == 0 {
      IdleIsSolvent(states[0], h);
    } else {
      EveryStateIsOk(states, steps, i - 1);
      StaysSolvent(states, steps, i - 1, h);
      StepKeepsSolvent(states[i - 1], steps[i - 1], states[i], h);
    }
  }

  /** No more than is owed: as long as a task has never held two mutexes at once, and
      once nobody is left who is about to undo an inheritance on its mutex, the task
      has the base priority it had at first or the priority of a task that waits. */
  lemma NoExcessWithOneMutex(states: seq<System>, steps: seq<Step>, i: nat, h: Task, m: MutexId)
    requires IsRun(states, steps) && i < |states| && h in states[0].tasks
    requires forall j, n, o :: 0 <= j <= i && Holds(states[j], h, n) && Holds(states[j], h, o) ==> n == o
    requires m in states[i].mutexes && states[i].mutexes[m].holder == Some(h)
    requires forall w :: w in states[i].places ==>
               states[i].places[w] != Contending(m, true) && states[i].places[w] != GivingUp(m)
    ensures h in states[i].tasks
    ensures states[i].tasks[h].priority == states[0].tasks[h].priority
            || exists w :: w in states[i].mutexes[m].waiters && w in states[i].tasks
                           && states[i].tasks[w].priority == states[i].tasks[h].priority
  {
    forall j | 0 <= j <= i ensures h in states[j].tasks && states[j].tasks[h].mutexesHeld <= 1 {
      EveryStateIsOk(states, steps, j);
      BasePriorityIsConstant(states, steps, j, h);
      HoldsAtMostOne(states[j], h);
    }
    hide Ok, Follows;
    StaysSolvent(states, steps, i, h);
    BasePriorityIsConstant(states, steps, i, h);
    if states[i].tasks[h].priority != states[i].tasks[h].basePriority {
      var n, w :| n in states[i].mutexes && states[i].mutexes[n].holder == Some(h)
                  && Creditor(states[i], n, w) && states[i].tasks[w].priority == states[i].tasks[h].priority;
      assert Holds(states[i], h, n) && Holds(states[i], h, m);
      assert w in states[i].mutexes[m].waiters;
    }
  }

  predicate Holds(k: System, h: Task, m: MutexId) {
    m in k.mutexes && k.mutexes[m].holder == Some(h)
  }

  lemma HoldsAtMostOne(k: System, h: Task)
    requires Ok(k) && h in k.tasks
    requires forall n, o :: Holds(k, h, n) && Holds(k, h, o) ==> n == o
    ensures k.tasks[h].mutexesHeld <= 1
  {
    assert h in k.places && TaskOk(k, h);
    var held := HeldBy(k.mutexes, h);
    if held != {} {
      var n :| n in held;
      forall o | o in held ensures o == n {
        assert Holds(k, h, n) && Holds(k, h, o);
      }
      assert held == {n};
    }
  }
  /** A system of two tasks and two mutexes. */
  function Two(t0: TCB, t1: TCB, p0: Place, p1: Place, m0: Mutex, m1: Mutex): System {
    System(5, map[0 := t0, 1 := t1], map[0 := p0, 1 := p1], map[0 := m0, 1 := m1])
  }

  lemma UpdatesOfTwo<T>(x: T, y: T, z: T)
    ensures map[0 := x, 1 := y][0 := z] == map[0 := z, 1 := y]
    ensures map[0 := x, 1 := y][1 := z] == map[0 := x, 1 := z]
  {
  }

  lemma FirstTaken(low: TCB, high: TCB, free: Mutex, mine: Mutex)
    requires low == TCB(1, 1, 0) && free == Mutex(false, 1, None, 0, []) && mine == Mutex(false, 0, Some(0), 0, [])
    ensures Follows(Two(low, high, Running, Running, free, free), Sleep(1),
                    Two(low, high, Running, Sleeping, free, free))
    ensures Follows(Two(low, high, Running, Sleeping, free, free), Contend(0, 0),
                    Two(low, high, Contending(0, false), Sleeping, free, free))
    ensures Follows(Two(low, high, Contending(0, false), Sleeping, free, free), Take(0),
                    Two(TCB(1, 1, 1), high, Running, Sleeping, mine, free))
  {
    UpdatesOfTwo(Running, Running, Sleeping);
    UpdatesOfTwo(Running, Sleeping, Contending(0, false));
    UpdatesOfTwo(Contending(0, false), Sleeping, Running);
    UpdatesOfTwo(low, high, TCB(1, 1, 1));
    UpdatesOfTwo(free, free, mine);
  }

  lemma BothTaken(high: TCB, free: Mutex, mine: Mutex)
    requires free == Mutex(false, 1, None, 0, []) && mine == Mutex(false, 0, Some(0), 0, [])
    ensures Follows(Two(TCB(1, 1, 1), high, Running, Sleeping, mine, free), Contend(0, 1),
                    Two(TCB(1, 1, 1), high, Contending(1, false), Sleeping, mine, free))
    ensures Follows(Two(TCB(1, 1, 1), high, Contending(1, false), Sleeping, mine, free), Take(0),
                    Two(TCB(1, 1, 2), high, Running, Sleeping, mine, mine))
  {
    UpdatesOfTwo(Running, Sleeping, Contending(1, false));
    UpdatesOfTwo(Contending(1, false), Sleeping, Running);
    UpdatesOfTwo(TCB(1, 1, 1), high, TCB(1, 1, 2));
    UpdatesOfTwo(mine, free, mine);
  }

  lemma Awake(low: TCB, high: TCB, mine: Mutex)
    requires low == TCB(1, 1, 2) && high == TCB(3, 3, 0) && mine == Mutex(false, 0, Some(0), 0, [])
    ensures Follows(Two(low, high, Running, Sleeping, mine, mine), Wake(1),
                    Two(low, high, Running, Running, mine, mine))
    ensures Follows(Two(low, high, Running, Running, mine, mine), Contend(1, 0),
                    Two(low, high, Running, Contending(0, false), mine, mine))
  {
    UpdatesOfTwo(Running, Sleeping, Running);
    UpdatesOfTwo(Running, Running, Contending(0, false));
  }

  lemma Inherits(low: TCB, high: TCB, mine: Mutex)
    requires low == TCB(1, 1, 2) && high == TCB(3, 3, 0) && mine == Mutex(false, 0, Some(0), 0, [])
    ensures Follows(Two(low, high, Running, Contending(0, false), mine, mine), Block(1),
                    Two(TCB(3, 1, 2), high, Running, Blocked(0, true), mine.(waiters := [1]), mine))
  {
    var k := Two(low, high, Running, Contending(0, false), mine, mine);
    UpdatesOfTwo<Place>(Running, Contending(0, false), Blocked(0, true));
    UpdatesOfTwo(low, high, TCB(3, 1, 2));
    UpdatesOfTwo(mine, mine, mine.(waiters := [1]));
    var tasks := map[0 := TCB(3, 1, 2), 1 := high];
    assert Enqueue([], 1, tasks, 5) == [1];
    hide Enqueue;
    assert Inherit(low, 3) == TCB(3, 1, 2) && InheritanceOccurred(low, 3);
    assert AfterBlock(k, 1, 0) == AfterEnqueue(k.(tasks := tasks), 1, 0, true);
  }

  lemma GivenBack(high: TCB, free: Mutex, mine: Mutex)
    requires high == TCB(3, 3, 0)
    requires free == Mutex(false, 1, None, 0, []) && mine == Mutex(false, 0, Some(0), 0, [])
    ensures Follows(Two(TCB(3, 1, 2), high, Running, Blocked(0, true), mine.(waiters := [1]), mine), Give(0, 0),
                    Two(TCB(3, 1, 1), high, Running, Contending(0, true), free, mine))
  {
    var waited := mine.(waiters := [1]);
    var k := Two(TCB(3, 1, 2), high, Running, Blocked(0, true), waited, mine);
    UpdatesOfTwo<Place>(Running, Blocked(0, true), Contending(0, true));
    UpdatesOfTwo(TCB(3, 1, 2), high, TCB(3, 1, 1));
    UpdatesOfTwo(waited, mine, free);
    assert [1][1..] == [];
    assert Apply(k, Give(0, 0)) == AfterRelease(k, 0, 0);
  }

  lemma TakenOver(high: TCB, free: Mutex, mine: Mutex)
    requires high == TCB(3, 3, 0)
    requires free == Mutex(false, 1, None, 0, []) && mine == Mutex(false, 0, Some(0), 0, [])
    ensures Follows(Two(TCB(3, 1, 1), high, Running, Contending(0, true), free, mine), Take(1),
                    Two(TCB(3, 1, 1), TCB(3, 3, 1), Running, Running, Mutex(false, 0, Some(1), 0, []), mine))
  {
    UpdatesOfTwo<Place>(Running, Contending(0, true), Running);
    UpdatesOfTwo(TCB(3, 1, 1), high, TCB(3, 3, 1));
    UpdatesOfTwo(free, mine, Mutex(false, 0, Some(1), 0, []));
  }

  lemma Extend(states: seq<System>, steps: seq<Step>, s: Step, k: System)
    returns (states': seq<System>, steps': seq<Step>)
    requires IsRun(states, steps) && Follows(states[|steps|], s, k)
    ensures IsRun(states', steps') && states'[|steps'|] == k
  {
    hide Follows, Initial;
    states', steps' := states + [k], steps + [s];
  }

  /** A task that runs above its base priority with one mutex, for which nobody waits,
      while every task runs. */
  ghost predicate InExcess(k: System, t: Task, m: MutexId) {
    && t in k.tasks && m in k.mutexes && k.mutexes[m].holder == Some(t) && k.mutexes[m].waiters == []
    && k.tasks[t].mutexesHeld == 1 && k.tasks[t].priority > k.tasks[t].basePriority
    && forall u :: u in k.places ==> k.places[u].Running?
  }

  lemma EndsOfExcess(low: TCB, high: TCB, free: Mutex, mine: Mutex)
    requires low == TCB(1, 1, 0) && high == TCB(3, 3, 0)
    requires free == Mutex(false, 1, None, 0, []) && mine == Mutex(false, 0, Some(0), 0, [])
    ensures Initial(Two(low, high, Running, Running, free, free))
    ensures InExcess(Two(TCB(3, 1, 1), TCB(3, 3, 1), Running, Running, Mutex(false, 0, Some(1), 0, []), mine), 0, 1)
  {
  }

  /** With two mutexes the excess outlives its cause: task 0 holds both and inherits
      from task 1, which waits for the first; it gives that one, task 1 takes it, and
      task 0 goes on at the inherited priority with the second, for which nobody waits. */
  lemma ExcessOutlivesItsCause() returns (states: seq<System>, steps: seq<Step>)
    ensures IsRun(states, steps)
    ensures InExcess(states[|steps|], 0, 1)
  {
    var low, high := TCB(1, 1, 0), TCB(3, 3, 0);
    var free, mine := Mutex(false, 1, None, 0, []), Mutex(false, 0, Some(0), 0, []);
    EndsOfExcess(low, high, free, mine);
    states, steps := [Two(low, high, Running, Running, free, free)], [];
    hide Follows, Initial, Two, InExcess;
    FirstTaken(low, high, free, mine);
    states, steps := Extend(states, steps, Sleep(1), Two(low, high, Running, Sleeping, free, free));
    states, steps := Extend(states, steps, Contend(0, 0), Two(low, high, Contending(0, false), Sleeping, free, free));
    states, steps := Extend(states, steps, Take(0), Two(TCB(1, 1, 1), high, Running, Sleeping, mine, free));
    BothTaken(high, free, mine);
    states, steps := Extend(states, steps, Contend(0, 1),
                            Two(TCB(1, 1, 1), high, Contending(1, false), Sleeping, mine, free));
    states, steps := Extend(states, steps, Take(0), Two(TCB(1, 1, 2), high, Running, Sleeping, mine, mine));
    Awake(TCB(1, 1, 2), high, mine);
    states, steps := Extend(states, steps, Wake(1), Two(TCB(1, 1, 2), high, Running, Running, mine, mine));
    states, steps := Extend(states, steps, Contend(1, 0),
                            Two(TCB(1, 1, 2), high, Running, Contending(0, false), mine, mine));
    Inherits(TCB(1, 1, 2), high, mine);
    states, steps := Extend(states, steps, Block(1),
                            Two(TCB(3, 1, 2), high, Running, Blocked(0, true), mine.(waiters := [1]), mine));
    GivenBack(high, free, mine);
    states, steps := Extend(states, steps, Give(0, 0),
                            Two(TCB(3, 1, 1), high, Running, Contending(0, true), free, mine));
    TakenOver(high, free, mine);
    states, steps := Extend(states, steps, Take(1),
                            Two(TCB(3, 1, 1), TCB(3, 3, 1), Running, Running, Mutex(false, 0, Some(1), 0, []), mine));
  }
}

/** queue.c: how tasks wait on a queue and are woken, between tasks and interrupts.
    One step is what happens from one point at which another task or an interrupt
    may run to the next. */
module QueueLock {
  import opened Arithmetic
  import opened RoundRobin
  import opened Wrappers

  type Task = nat

  /** What a task calls: xQueueGenericSend, with or without queueOVERWRITE,
      xQueueReceive or xQueueSemaphoreTake, and xQueuePeek. */
  datatype Operation = Send | Overwrite | Receive | Peek

  /** The tasks waiting at one end of the queue; the tasks that an event has taken
      off that list and that have not yet tried again; and the lock that counts the
      events from interrupts while the queue is locked, or is -1.  For the receiving
      end these are xTasksWaitingToReceive and cTxLock, for the sending end
      xTasksWaitingToSend and cRxLock. */
  datatype End = End(waiting: seq<Task>, woken: set<Task>, lock: int)

  /** What a task does once it has unlocked the queue. */
  datatype Then = Block | Retry | GiveUp

  /** Where a task is in its operation. */
  datatype Place =
    | Idle
    | Trying(op: Operation)
    | Failed(op: Operation)
    | Suspended(op: Operation)
    | Locked(op: Operation)
    | Checked(op: Operation)
    | Placing(op: Operation)
    | UnlockingTx(op: Operation, next: Then)
    | UnlockingRx(op: Operation, next: Then)
    | Resuming(op: Operation, next: Then)
    | Blocked(op: Operation)
    | Expired(op: Operation)

  /** The queue, the tasks that use it, and the task that has suspended the
      scheduler, if any. */
  datatype Queue = Queue(
    length: nat, messages: nat, receivers: End, senders: End,
    suspender: Option<Task>, places: map<Task, Place>)

  datatype Step =
    | Call(task: Task, op: Operation)
    | Attempt(task: Task, wait: bool)
    | Suspend(task: Task)
    | Lock(task: Task)
    | CheckTimeOut(task: Task, expired: bool)
    | CheckFull(task: Task)
    | PlaceOnList(task: Task, pos: nat)
    | UnlockTx(task: Task)
    | UnlockRx(task: Task)
    | Resume(task: Task)
    | CheckEmpty(task: Task)
    | Awake(task: Task)
    | Timeout(task: Task)
    | SendFromISR(overwrite: bool)
    | ReceiveFromISR

  predicate AtSenders(op: Operation) {
    op.Send? || op.Overwrite?
  }

  /** Whether the operation would succeed. */
  predicate Possible(q: Queue, op: Operation) {
    op.Overwrite? || if op.Send? then q.messages < q.length else q.messages > 0
  }

  // ----- what a step does to one end -----

  /** xTaskRemoveFromEventList on the first waiter, if there is one. */
  function WakeFirst(e: End): End {
    if e.waiting == [] then e else e.(waiting := e.waiting[1..], woken := e.woken + {e.waiting[0]})
  }

  /** The end of xQueueGenericSendFromISR and xQueueReceiveFromISR. */
  function NotifyFromISR(e: End): End {
    if e.lock == -1 then WakeFirst(e) else e.(lock := e.lock + 1)
  }

  /** prvLockQueue */
  function LockEnd(e: End): End {
    if e.lock == -1 then e.(lock := 0) else e
  }

  /** One of the two loops of prvUnlockQueue: wake a waiter for every event counted,
      as long as there are any. */
  function UnlockEnd(e: End): End
    decreases if e.lock > 0 then e.lock else 0
  {
    if e.lock > 0 && e.waiting != [] then UnlockEnd(WakeFirst(e).(lock := e.lock - 1)) else e.(lock := -1)
  }

  function Leave(e: End, t: Task): End {
    e.(waiting := Remove(e.waiting, t))
  }

  function Retried(e: End, t: Task): End {
    e.(woken := e.woken - {t})
  }

  function Join(e: End, t: Task, pos: nat): End
    requires pos <= |e.waiting|
  {
    e.(waiting := e.waiting[..pos] + [t] + e.waiting[pos..])
  }

  // ----- the steps -----

  /** The critical section at the top of the loop. */
  function AfterAttempt(q: Queue, t: Task, op: Operation, wait: bool): Queue {
    var tried := if AtSenders(op) then q.(senders := Retried(q.senders, t))
      else q.(receivers := Retried(q.receivers, t));
    if !Possible(q, op) then tried.(places := q.places[t := if wait then Failed(op) else Idle])
    else
      var done := tried.(places := q.places[t := Idle]);
      match op
      case Send => done.(messages := q.messages + 1, receivers := WakeFirst(done.receivers))
      case Overwrite => done.(messages := Min(q.messages + 1, q.length), receivers := WakeFirst(done.receivers))
      case Receive =>
        done.(messages := if q.messages > 0 then q.messages - 1 else 0, senders := WakeFirst(done.senders))
      case Peek => done.(receivers := WakeFirst(done.receivers))
  }

  function Waiting(q: Queue, op: Operation): seq<Task> {
    if AtSenders(op) then q.senders.waiting else q.receivers.waiting
  }

  predicate MayRun(q: Queue, t: Task) {
    t in q.places && (q.suspender == None || q.suspender == Some(t))
  }

  predicate Enabled(q: Queue, s: Step) {
    match s
    case Call(t, op) => MayRun(q, t) && q.places[t].Idle? && (op.Overwrite? ==> q.length == 1)
    case Attempt(t, wait) => MayRun(q, t) && q.places[t].Trying?
    case Suspend(t) => MayRun(q, t) && q.places[t].Failed?
    case Lock(t) => MayRun(q, t) && q.places[t].Suspended?
    case CheckTimeOut(t, _) => MayRun(q, t) && q.places[t].Locked?
    case CheckFull(t) => MayRun(q, t) && q.places[t].Checked?
    case PlaceOnList(t, pos) => MayRun(q, t) && q.places[t].Placing? && pos <= |Waiting(q, q.places[t].op)|
    case UnlockTx(t) => MayRun(q, t) && q.places[t].UnlockingTx?
    case UnlockRx(t) => MayRun(q, t) && q.places[t].UnlockingRx?
    case Resume(t) => MayRun(q, t) && q.places[t].Resuming?
    case CheckEmpty(t) => MayRun(q, t) && q.places[t].Expired?
    case Awake(t) => MayRun(q, t) && q.places[t].Blocked? && t !in Waiting(q, q.places[t].op)
    case Timeout(t) => t in q.places && q.suspender == None && q.places[t].Blocked?
    case SendFromISR(overwrite) => (overwrite ==> q.length == 1) && q.receivers.lock < 127
    case ReceiveFromISR => q.senders.lock < 127
  }

  function Move(q: Queue, t: Task, p: Place): Queue {
    q.(places := q.places[t := p])
  }

  function Apply(q: Queue, s: Step): Queue
    requires Enabled(q, s)
  {
    match s
    case Call(t, op) => Move(q, t, Trying(op))
    case Attempt(t, wait) => AfterAttempt(q, t, q.places[t].op, wait)
    case Suspend(t) => Move(q, t, Suspended(q.places[t].op)).(suspender := Some(t))
    case Lock(t) =>
      Move(q, t, Locked(q.places[t].op)).(receivers := LockEnd(q.receivers), senders := LockEnd(q.senders))
    case CheckTimeOut(t, expired) =>
      Move(q, t, if expired then UnlockingTx(q.places[t].op, GiveUp) else Checked(q.places[t].op))
    case CheckFull(t) =>
      Move(q, t, if Possible(q, q.places[t].op) then UnlockingTx(q.places[t].op, Retry) else Placing(q.places[t].op))
    case PlaceOnList(t, pos) =>
      var op := q.places[t].op;
      var placed := Move(q, t, UnlockingTx(op, Block));
      if AtSenders(op) then placed.(senders := Join(q.senders, t, pos))
      else placed.(receivers := Join(q.receivers, t, pos))
    case UnlockTx(t) =>
      Move(q, t, UnlockingRx(q.places[t].op, q.places[t].next)).(receivers := UnlockEnd(q.receivers))
    case UnlockRx(t) =>
      Move(q, t, Resuming(q.places[t].op, q.places[t].next)).(senders := UnlockEnd(q.senders))
    case Resume(t) =>
      var op := q.places[t].op;
      Move(q, t, match q.places[t].next
                 case Block => Blocked(op)
                 case Retry => Trying(op)
                 case GiveUp => if AtSenders(op) then Idle else Expired(op)).(suspender := None)
    case CheckEmpty(t) => Move(q, t, if q.messages == 0 then Idle else Trying(q.places[t].op))
    case Awake(t) => Move(q, t, Trying(q.places[t].op))
    case Timeout(t) =>
      if AtSenders(q.places[t].op) then q.(senders := Leave(q.senders, t)) else q.(receivers := Leave(q.receivers, t))
    case SendFromISR(overwrite) =>
      if q.messages < q.length || overwrite then
        q.(messages := Min(q.messages + 1, q.length), receivers := NotifyFromISR(q.receivers))
      else q
    case ReceiveFromISR =>
      if q.messages > 0 then q.(messages := q.messages - 1, senders := NotifyFromISR(q.senders)) else q
  }

  // ----- the invariant -----

  /** If anyone waits at this end, then everything there is to have is accounted for
      by tasks that have been woken for it, or by events counted in the lock. */
  ghost predicate NothingIsLost(e: End, available: int) {
    e.waiting != [] ==> available <= |e.woken| + if e.lock > 0 then e.lock else 0
  }

  ghost predicate EndOk(e: End, available: int) {
    && Distinct(e.waiting) && (forall t :: t in e.waiting ==> t !in e.woken)
    && e.lock >= -1 && NothingIsLost(e, available)
  }

  /** The task has put itself on a list and has not tried again since. */
  predicate Waits(p: Place) {
    p.Blocked? || ((p.UnlockingTx? || p.UnlockingRx? || p.Resuming?) && p.next.Block?)
  }

  predicate HasSuspended(p: Place) {
    p.Suspended? || p.Locked? || p.Checked? || p.Placing? || p.UnlockingTx? || p.UnlockingRx? || p.Resuming?
  }

  ghost predicate TaskOk(q: Queue, t: Task)
    requires t in q.places
  {
    var p := q.places[t];
    && (t in q.receivers.waiting ==> Waits(p) && !AtSenders(p.op))
    && (t in q.senders.waiting ==> Waits(p) && AtSenders(p.op))
    && (t in q.receivers.woken ==> (Waits(p) || p.Trying?) && !AtSenders(p.op))
    && (t in q.senders.woken ==> (Waits(p) || p.Trying?) && AtSenders(p.op))
    && (HasSuspended(p) <==> q.suspender == Some(t))
    && (!p.Idle? && p.op.Overwrite? ==> q.length == 1 && p.Trying?)
    && (p.Placing? ==> if AtSenders(p.op) then q.length - q.messages <= q.senders.lock
                       else q.messages <= q.receivers.lock)
  }

  /** The locks, as the place of the task that holds the scheduler tells. */
  ghost predicate LocksOk(q: Queue) {
    match q.suspender
    case None => q.receivers.lock == -1 && q.senders.lock == -1
    case Some(t) =>
      && t in q.places
      && var p := q.places[t];
         && (q.receivers.lock >= 0 <==> p.Locked? || p.Checked? || p.Placing? || p.UnlockingTx?)
         && (q.senders.lock >= 0 <==> p.Locked? || p.Checked? || p.Placing? || p.UnlockingTx? || p.UnlockingRx?)
  }

  ghost predicate Ok(q: Queue) {
    && q.messages <= q.length
    && EndOk(q.receivers, q.messages) && EndOk(q.senders, q.length - q.messages)
    && (forall t :: t in q.receivers.waiting || t in q.receivers.woken ==> t in q.places)
    && (forall t :: t in q.senders.waiting || t in q.senders.woken ==> t in q.places)
    && (forall t :: t in q.places ==> TaskOk(q, t))
    && LocksOk(q)
  }

  // ----- the ends -----

  /** The waiters come from the waiters, and the woken from either. */
  ghost predicate Fewer(e: End, e': End) {
    && (forall t :: t in e'.waiting ==> t in e.waiting)
    && (forall t :: t in e'.woken ==> t in e.woken || t in e.waiting)
  }

  lemma WakeFirstOk(e: End, available: int)
    requires EndOk(e, available)
    ensures EndOk(WakeFirst(e), available) && EndOk(WakeFirst(e), available + 1) && Fewer(e, WakeFirst(e))
    ensures WakeFirst(e).lock == e.lock
  {
  }

  lemma NotifyOk(e: End, available: int)
    requires EndOk(e, available)
    ensures EndOk(NotifyFromISR(e), available) && EndOk(NotifyFromISR(e), available + 1) && Fewer(e, NotifyFromISR(e))
  {
    WakeFirstOk(e, available);
  }

  lemma RetriedOk(e: End, available: int, t: Task)
    requires EndOk(e, available)
    ensures EndOk(Retried(e, t), available - 1) && Fewer(e, Retried(e, t))
    ensures available <= 0 ==> EndOk(Retried(e, t), available)
  {
    assert |e.woken - {t}| >= |e.woken| - 1;
  }

  lemma {:induction false} UnlockOk(e: End, available: int)
    requires EndOk(e, available)
    ensures EndOk(UnlockEnd(e), available) && Fewer(e, UnlockEnd(e)) && UnlockEnd(e).lock == -1
    decreases if e.lock > 0 then e.lock else 0
  {
    if e.lock > 0 && e.waiting != [] {
      WakeFirstOk(e, available);
      UnlockOk(WakeFirst(e).(lock := e.lock - 1), available);
    }
  }

  lemma LeaveOk(e: End, available: int, t: Task)
    requires EndOk(e, available)
    ensures EndOk(Leave(e, t), available) && Fewer(e, Leave(e, t))
  {
    if t in e.waiting {
      RemoveAtMembers(Ring(e.waiting, 0), IndexOf(e.waiting, t));
    }
  }

  /** A task may join the waiters when the lock accounts for all there is. */
  lemma JoinOk(e: End, available: int, t: Task, pos: nat)
    requires EndOk(e, available) && t !in e.waiting && t !in e.woken && pos <= |e.waiting| && available <= e.lock
    ensures EndOk(Join(e, t, pos), available)
    ensures forall u :: u in Join(e, t, pos).waiting <==> u in e.waiting || u == t
  {
    InsertAtMembers(Ring(e.waiting, 0), t, pos);
  }

  // ----- every step keeps the invariant -----

  /** Nothing but the task t joins an end. */
  ghost predicate FewerBut(e: End, e': End, t: Task) {
    && (forall u :: u != t && u in e'.waiting ==> u in e.waiting)
    && (forall u :: u != t && u in e'.woken ==> u in e.woken || u in e.waiting)
  }

  /** A step of task t, which is alone if it has suspended the scheduler. */
  ghost predicate StepOf(q: Queue, q': Queue, t: Task) {
    && t in q.places && t in q'.places && (q.suspender == None || q.suspender == Some(t))
    && q'.length == q.length && q'.messages <= q'.length
    && q'.places == q.places[t := q'.places[t]]
    && (q'.suspender == None || q'.suspender == Some(t))
    && FewerBut(q.receivers, q'.receivers, t) && FewerBut(q.senders, q'.senders, t)
  }

  lemma StepOfOk(q: Queue, q': Queue, t: Task)
    requires Ok(q) && StepOf(q, q', t)
    requires EndOk(q'.receivers, q'.messages) && EndOk(q'.senders, q'.length - q'.messages)
    requires TaskOk(q', t) && LocksOk(q')
    ensures Ok(q')
  {
    forall u | u in q'.places ensures TaskOk(q', u) {
      assert TaskOk(q, u);
    }
  }

  lemma OkFacts(q: Queue, t: Task)
    requires Ok(q) && t in q.places
    ensures q.messages <= q.length && EndOk(q.receivers, q.messages) && EndOk(q.senders, q.length - q.messages)
    ensures TaskOk(q, t) && LocksOk(q)
  {
  }

  /** The locks are released whenever a task may attempt an operation. */
  lemma SoleTask(q: Queue, t: Task)
    requires Ok(q) && MayRun(q, t) && !HasSuspended(q.places[t])
    ensures q.suspender == None && q.receivers.lock == -1 && q.senders.lock == -1
  {
    assert TaskOk(q, t);
  }

  lemma AttemptOk(q: Queue, t: Task, wait: bool)
    requires Ok(q) && MayRun(q, t) && q.places[t].Trying?
    ensures Ok(AfterAttempt(q, t, q.places[t].op, wait))
  {
    var op := q.places[t].op;
    SoleTask(q, t);
    if !Possible(q, op) {
      RefusedOk(q, t, op, wait);
    } else if AtSenders(op) {
      SentOk(q, t, op, wait);
    } else if op.Receive? {
      ReceivedOk(q, t, wait);
    } else {
      PeekedOk(q, t, wait);
    }
  }

  lemma RefusedOk(q: Queue, t: Task, op: Operation, wait: bool)
    requires Ok(q) && MayRun(q, t) && q.places[t] == Trying(op) && !Possible(q, op) && q.suspender == None
    ensures Ok(AfterAttempt(q, t, op, wait))
  {
    assert TaskOk(q, t);
    if AtSenders(op) {
      RetriedOk(q.senders, q.length - q.messages, t);
    } else {
      RetriedOk(q.receivers, q.messages, t);
    }
    hide EndOk;
    StepOfOk(q, AfterAttempt(q, t, op, wait), t);
  }

  /** A send takes one free slot, which the sender may have been woken for, and leaves
      one message, for which a receiver is woken. */
  lemma SentOk(q: Queue, t: Task, op: Operation, wait: bool)
    requires Ok(q) && MayRun(q, t) && q.places[t] == Trying(op) && Possible(q, op) && AtSenders(op)
            && q.suspender == None
    ensures Ok(AfterAttempt(q, t, op, wait))
  {
    hide Ok, EndOk, WakeFirst;
    OkFacts(q, t);
    RetriedOk(q.senders, q.length - q.messages, t);
    WakeFirstOk(q.receivers, q.messages);
    StepOfOk(q, AfterAttempt(q, t, op, wait), t);
  }

  /** A receive is the same with the ends exchanged. */
  lemma ReceivedOk(q: Queue, t: Task, wait: bool)
    requires Ok(q) && MayRun(q, t) && q.places[t] == Trying(Receive) && Possible(q, Receive) && q.suspender == None
    ensures Ok(AfterAttempt(q, t, Receive, wait))
  {
    hide Ok, EndOk, WakeFirst;
    OkFacts(q, t);
    RetriedOk(q.receivers, q.messages, t);
    WakeFirstOk(q.senders, q.length - q.messages);
    StepOfOk(q, AfterAttempt(q, t, Receive, wait), t);
  }

  /** A peek takes nothing, but wakes the next receiver in place of the one that
      peeks. */
  lemma PeekedOk(q: Queue, t: Task, wait: bool)
    requires Ok(q) && MayRun(q, t) && q.places[t] == Trying(Peek) && Possible(q, Peek) && q.suspender == None
    ensures Ok(AfterAttempt(q, t, Peek, wait))
  {
    hide Ok, EndOk, WakeFirst;
    OkFacts(q, t);
    RetriedOk(q.receivers, q.messages, t);
    WakeFirstOk(Retried(q.receivers, t), q.messages - 1);
    StepOfOk(q, AfterAttempt(q, t, Peek, wait), t);
  }

  lemma MoveOk(q: Queue, t: Task, p: Place, suspender: Option<Task>)
    requires Ok(q) && MayRun(q, t) && (suspender == None || suspender == Some(t))
    requires var q' := Move(q, t, p).(suspender := suspender);
             TaskOk(q', t) && LocksOk(q')
    ensures Ok(Move(q, t, p).(suspender := suspender))
  {
    StepOfOk(q, Move(q, t, p).(suspender := suspender), t);
  }

  lemma LockOk(q: Queue, t: Task)
    requires Ok(q) && MayRun(q, t) && q.places[t].Suspended?
    ensures Ok(Apply(q, Lock(t)))
  {
    assert TaskOk(q, t);
    StepOfOk(q, Apply(q, Lock(t)), t);
  }

  lemma PlaceOk(q: Queue, t: Task, pos: nat)
    requires Ok(q) && Enabled(q, PlaceOnList(t, pos))
    ensures Ok(Apply(q, PlaceOnList(t, pos)))
  {
    assert TaskOk(q, t);
    if AtSenders(q.places[t].op) {
      JoinOk(q.senders, q.length - q.messages, t, pos);
    } else {
      JoinOk(q.receivers, q.messages, t, pos);
    }
    hide Join;
    StepOfOk(q, Apply(q, PlaceOnList(t, pos)), t);
  }

  lemma UnlockTxOk(q: Queue, t: Task)
    requires Ok(q) && Enabled(q, UnlockTx(t))
    ensures Ok(Apply(q, UnlockTx(t)))
  {
    assert TaskOk(q, t);
    UnlockOk(q.receivers, q.messages);
    hide UnlockEnd;
    StepOfOk(q, Apply(q, UnlockTx(t)), t);
  }

  lemma UnlockRxOk(q: Queue, t: Task)
    requires Ok(q) && Enabled(q, UnlockRx(t))
    ensures Ok(Apply(q, UnlockRx(t)))
  {
    assert TaskOk(q, t);
    UnlockOk(q.senders, q.length - q.messages);
    hide UnlockEnd;
    StepOfOk(q, Apply(q, UnlockRx(t)), t);
  }

  lemma TimeoutOk(q: Queue, t: Task)
    requires Ok(q) && Enabled(q, Timeout(t))
    ensures Ok(Apply(q, Timeout(t)))
  {
    assert TaskOk(q, t);
    LeaveOk(q.receivers, q.messages, t);
    LeaveOk(q.senders, q.length - q.messages, t);
    hide Leave;
    StepOfOk(q, Apply(q, Timeout(t)), t);
  }

  /** An interrupt moves no task; if one is about to place itself on a list, the
      queue is locked, and the interrupt is counted. */
  lemma InterruptedTask(q: Queue, q': Queue, t: Task)
    requires t in q.places && TaskOk(q, t) && LocksOk(q)
    requires q' == q.(messages := q'.messages, receivers := q'.receivers, senders := q'.senders)
    requires Fewer(q.receivers, q'.receivers) && Fewer(q.senders, q'.senders)
    requires q.receivers.lock >= 0 ==> q'.messages - q.messages <= q'.receivers.lock - q.receivers.lock
    requires q.senders.lock >= 0 ==> q.messages - q'.messages <= q'.senders.lock - q.senders.lock
    ensures TaskOk(q', t)
  {
  }

  lemma LocksStay(q: Queue, q': Queue)
    requires LocksOk(q) && q'.suspender == q.suspender && q'.places == q.places
    requires q.receivers.lock == -1 <==> q'.receivers.lock == -1
    requires q.senders.lock == -1 <==> q'.senders.lock == -1
    requires q.receivers.lock >= -1 && q'.receivers.lock >= -1 && q.senders.lock >= -1 && q'.senders.lock >= -1
    ensures LocksOk(q')
  {
  }

  lemma InterruptOk(q: Queue, q': Queue)
    requires Ok(q) && q' == q.(messages := q'.messages, receivers := q'.receivers, senders := q'.senders)
    requires q'.messages <= q'.length && EndOk(q'.receivers, q'.messages) && EndOk(q'.senders, q'.length - q'.messages)
    requires Fewer(q.receivers, q'.receivers) && Fewer(q.senders, q'.senders)
    requires if q.receivers.lock == -1 then q'.receivers.lock == -1
             else q'.messages - q.messages <= q'.receivers.lock - q.receivers.lock && q'.receivers.lock >= 0
    requires if q.senders.lock == -1 then q'.senders.lock == -1
             else q.messages - q'.messages <= q'.senders.lock - q.senders.lock && q'.senders.lock >= 0
    ensures Ok(q')
  {
    LocksStay(q, q');
    hide TaskOk, LocksOk, EndOk;
    forall u | u in q'.places ensures TaskOk(q', u) {
      InterruptedTask(q, q', u);
    }
  }

  lemma SendFromISROk(q: Queue, overwrite: bool)
    requires Ok(q) && Enabled(q, SendFromISR(overwrite))
    ensures Ok(Apply(q, SendFromISR(overwrite)))
  {
    NotifyOk(q.receivers, q.messages);
    assert q.receivers.lock >= -1 && q.senders.lock >= -1;
    if q.messages < q.length || overwrite {
      var q' := Apply(q, SendFromISR(overwrite));
      hide TaskOk, LocksOk, Fewer, WakeFirst;
      InterruptOk(q, q');
    }
  }

  lemma ReceiveFromISROk(q: Queue)
    requires Ok(q) && Enabled(q, ReceiveFromISR)
    ensures Ok(Apply(q, ReceiveFromISR))
  {
    NotifyOk(q.senders, q.length - q.messages);
    assert q.receivers.lock >= -1 && q.senders.lock >= -1;
    if q.messages > 0 {
      var q' := Apply(q, ReceiveFromISR);
      hide TaskOk, LocksOk, Fewer, WakeFirst;
      InterruptOk(q, q');
    }
  }

  lemma StepOk(q: Queue, s: Step)
    requires Ok(q) && Enabled(q, s)
    ensures Ok(Apply(q, s))
  {
    match s
    case Call(t, op) => SimpleOk(q, s, t);
    case Attempt(t, wait) => AttemptOk(q, t, wait);
    case Suspend(t) => SimpleOk(q, s, t);
    case Lock(t) => LockOk(q, t);
    case CheckTimeOut(t, _) => SimpleOk(q, s, t);
    case CheckFull(t) => SimpleOk(q, s, t);
    case PlaceOnList(t, pos) => PlaceOk(q, t, pos);
    case UnlockTx(t) => UnlockTxOk(q, t);
    case UnlockRx(t) => UnlockRxOk(q, t);
    case Resume(t) => SimpleOk(q, s, t);
    case CheckEmpty(t) => SimpleOk(q, s, t);
    case Awake(t) => SimpleOk(q, s, t);
    case Timeout(t) => TimeoutOk(q, t);
    case SendFromISR(overwrite) => SendFromISROk(q, overwrite);
    case ReceiveFromISR => ReceiveFromISROk(q);
  }

  /** The steps that touch neither end. */
  lemma SimpleOk(q: Queue, s: Step, t: Task)
    requires Ok(q) && Enabled(q, s)
    requires s.Call? || s.Suspend? || s.CheckTimeOut? || s.CheckFull? || s.Resume? || s.CheckEmpty? || s.Awake?
    requires t == s.task
    ensures Ok(Apply(q, s))
  {
    assert TaskOk(q, t);
    var q' := Apply(q, s);
    MoveOk(q, t, q'.places[t], q'.suspender);
  }

  // ----- whole runs -----

  ghost predicate Initial(q: Queue) {
    && q.messages <= q.length && q.receivers == End([], {}, -1) && q.senders == End([], {}, -1)
    && q.suspender == None && forall t :: t in q.places ==> q.places[t].Idle?
  }

  ghost predicate IsRun(states: seq<Queue>, steps: seq<Step>) {
    && |states| == |steps| + 1 && Initial(states[0])
    && forall i :: 0 <= i < |steps| ==> Follows(states[i], steps[i], states[i + 1])
  }

  ghost predicate Follows(q: Queue, s: Step, q': Queue) {
    Enabled(q, s) && q' == Apply(q, s)
  }

  lemma {:induction false} EveryStateIsOk(states: seq<Queue>, steps: seq<Step>, i: nat)
    requires IsRun(states, steps) && i < |states|
    ensures Ok(states[i])
  {
    if i > 0 {
      EveryStateIsOk(states, steps, i - 1);
      assert Follows(states[i - 1], steps[i - 1], states[i]);
      StepOk(states[i - 1], steps[i - 1]);
    }
  }

  /** No wake-up is lost: in every state of every run, if a task waits to receive,
      the messages in the queue are no more than the tasks woken to receive that have
      not tried again, and the sends counted in the lock; and likewise for the free
      slots and the tasks that wait to send. */
  lemma NoLostWakeUp(states: seq<Queue>, steps: seq<Step>, i: nat)
    requires IsRun(states, steps) && i < |states|
    ensures var q := states[i];
            && (q.receivers.waiting != [] ==>
                  q.messages <= |q.receivers.woken| + if q.receivers.lock > 0 then q.receivers.lock else 0)
            && (q.senders.waiting != [] ==>
                  q.length - q.messages <= |q.senders.woken| + if q.senders.lock > 0 then q.senders.lock else 0)
  {
    EveryStateIsOk(states, steps, i);
  }

  /** So when nobody holds the scheduler and no woken task has yet to try again, no
      task is blocked that could go on. */
  lemma NobodyWaitsInVain(states: seq<Queue>, steps: seq<Step>, i: nat, t: Task)
    requires IsRun(states, steps) && i < |states|
    requires states[i].suspender == None && states[i].receivers.woken == {} && states[i].senders.woken == {}
    requires t in states[i].places && states[i].places[t].Blocked? && t in Waiting(states[i], states[i].places[t].op)
    ensures !Possible(states[i], states[i].places[t].op)
  {
    EveryStateIsOk(states, steps, i);
    assert TaskOk(states[i], t);
  }

  /** A woken task is off every list, and either runs or will run as soon as nobody
      else holds the scheduler. */
  lemma WokenTasksRun(states: seq<Queue>, steps: seq<Step>, i: nat, t: Task)
    requires IsRun(states, steps) && i < |states|
    requires t in states[i].receivers.woken || t in states[i].senders.woken
    ensures t in states[i].places && t !in states[i].receivers.waiting && t !in states[i].senders.waiting
    ensures states[i].suspender == None && states[i].places[t].Blocked? ==> Enabled(states[i], Awake(t))
    ensures states[i].suspender == None && !states[i].places[t].Blocked? ==> Enabled(states[i], Attempt(t, true))
  {
    EveryStateIsOk(states, steps, i);
    assert TaskOk(states[i], t);
  }

  // ----- what each operation achieves -----

  /** What a step adds to the messages: a send that finds a free slot adds one, and a
      receive that finds a message takes one; a peek, and the overwriting of a full
      queue, change nothing. */
  function Effect(q: Queue, s: Step): int {
    match s
    case Attempt(t, _) =>
      if t !in q.places || !q.places[t].Trying? then 0
      else
        (match q.places[t].op
         case Send => if q.messages < q.length then 1 else 0
         case Overwrite => if q.messages < q.length then 1 else 0
         case Receive => if q.messages > 0 then -1 else 0
         case Peek => 0)
    case SendFromISR(_) => if q.messages < q.length then 1 else 0
    case ReceiveFromISR => if q.messages > 0 then -1 else 0
    case _ => 0
  }

  /** The sends accepted in the first i steps, less the receives that succeeded. */
  function NetSends(states: seq<Queue>, steps: seq<Step>, i: nat): int
    requires i <= |steps| <= |states|
  {
    if i == 0 then 0 else NetSends(states, steps, i - 1) + Effect(states[i - 1], steps[i - 1])
  }

  lemma EffectOk(q: Queue, s: Step)
    requires q.messages <= q.length && Enabled(q, s)
    ensures Apply(q, s).messages == q.messages + Effect(q, s)
    ensures Apply(q, s).length == q.length && Apply(q, s).messages <= q.length
  {
    hide WakeFirst, NotifyFromISR, UnlockEnd, LockEnd, Leave, Join, Retried;
  }

  /** Messages are conserved: in every state of every run the queue holds what it held
      at first and what has been sent, less what has been received. */
  lemma {:induction false} MessagesAreConserved(states: seq<Queue>, steps: seq<Step>, i: nat)
    requires IsRun(states, steps) && i < |states|
    ensures states[i].messages == states[0].messages + NetSends(states, steps, i)
    ensures states[i].messages <= states[i].length == states[0].length
  {
    hide Effect;
    if i > 0 {
      MessagesAreConserved(states, steps, i - 1);
      assert Follows(states[i - 1], steps[i - 1], states[i]);
      EffectOk(states[i - 1], steps[i - 1]);
    }
  }

  /** Whether the queue lets an operation through: a send needs a free slot, a receive
      and a peek a message, and an overwrite nothing. */
  predicate LetsThrough(q: Queue, op: Operation) {
    match op
    case Send => q.messages < q.length
    case Overwrite => true
    case Receive => q.messages >= 1
    case Peek => q.messages >= 1
  }

  /** The end e' that is left when the first waiter of e, if there is one, is woken. */
  predicate FirstIsWoken(e: End, e': End) {
    && e'.lock == e.lock
    && if e.waiting == [] then e'.waiting == [] && e'.woken == e.woken
       else e.waiting == [e.waiting[0]] + e'.waiting && e'.woken == e.woken + {e.waiting[0]}
  }

  /** An attempt succeeds exactly when the queue lets the operation through, and then
      the task is done and wakes the first waiter that can use what it leaves: for a
      send the first receiver, for a receive the first sender, and for a peek, which
      leaves the message, the next receiver.  Otherwise the task is done if it does not
      wait, and nobody is woken. */
  lemma AttemptAchieves(q: Queue, t: Task, wait: bool)
    requires Enabled(q, Attempt(t, wait))
    ensures var q', op := Apply(q, Attempt(t, wait)), q.places[t].op;
            var receivers := if op.Send? || op.Overwrite? then q.receivers
                             else q.receivers.(woken := q.receivers.woken - {t});
            var senders := if op.Send? || op.Overwrite? then q.senders.(woken := q.senders.woken - {t})
                           else q.senders;
            && q'.places == q.places[t := if !LetsThrough(q, op) && wait then Failed(op) else Idle]
            && (!LetsThrough(q, op) ==> q'.messages == q.messages && q'.receivers == receivers && q'.senders == senders)
            && (LetsThrough(q, op) && op.Receive? ==> q'.receivers == receivers && FirstIsWoken(senders, q'.senders))
            && (LetsThrough(q, op) && !op.Receive? ==> FirstIsWoken(receivers, q'.receivers) && q'.senders == senders)
  {
  }

  /** A task that finds the queue locked by itself goes to wait exactly when its time
      has not expired and the queue does not let its operation through; if it has
      expired it gives up, and a task that gives up on a receive goes round again
      exactly if a message has come meanwhile. */
  lemma WaitsExactlyWhen(q: Queue, t: Task, expired: bool)
    ensures Enabled(q, CheckTimeOut(t, expired)) ==>
              Apply(q, CheckTimeOut(t, expired)) ==
              q.(places := q.places[t := if expired then UnlockingTx(q.places[t].op, GiveUp)
                                         else Checked(q.places[t].op)])
    ensures Enabled(q, CheckFull(t)) ==>
              Apply(q, CheckFull(t)) ==
              q.(places := q.places[t := if LetsThrough(q, q.places[t].op) then UnlockingTx(q.places[t].op, Retry)
                                         else Placing(q.places[t].op)])
    ensures Enabled(q, CheckEmpty(t)) ==>
              Apply(q, CheckEmpty(t)) ==
              q.(places := q.places[t := if q.messages >= 1 then Trying(q.places[t].op) else Idle])
  {
  }

  /** A task that goes to wait joins the list of its end, between others that keep their
      order; a timeout takes it off again.  Neither touches the other end. */
  lemma ListsChangeByOne(q: Queue, t: Task, pos: nat)
    ensures Enabled(q, PlaceOnList(t, pos)) ==>
              var q', before := Apply(q, PlaceOnList(t, pos)), Waiting(q, q.places[t].op);
              && q'.places == q.places[t := UnlockingTx(q.places[t].op, Block)] && q'.messages == q.messages
              && Waiting(q', q.places[t].op) == before[..pos] + [t] + before[pos..]
              && (if AtSenders(q.places[t].op) then q'.receivers == q.receivers else q'.senders == q.senders)
    ensures Enabled(q, Timeout(t)) && Distinct(Waiting(q, q.places[t].op)) ==>
              var q', before := Apply(q, Timeout(t)), Waiting(q, q.places[t].op);
              && q'.places == q.places && q'.messages == q.messages
              && (forall u :: u in Waiting(q', q.places[t].op) <==> u in before && u != t)
              && (if AtSenders(q.places[t].op) then q'.receivers == q.receivers else q'.senders == q.senders)
  {
    if Enabled(q, Timeout(t)) && t in Waiting(q, q.places[t].op) && Distinct(Waiting(q, q.places[t].op)) {
      RemoveAtMembers(Ring(Waiting(q, q.places[t].op), 0), IndexOf(Waiting(q, q.places[t].op), t));
    }
  }

  /** A task that has suspended the scheduler and locked the queue gives both up again,
      and then blocks, tries once more or gives up, as it decided meanwhile. */
  lemma ResumesAsDecided(q: Queue, t: Task)
    requires Enabled(q, Resume(t))
    ensures Apply(q, Resume(t)).suspender == None
    ensures var op, p := q.places[t].op, Apply(q, Resume(t)).places[t];
            match q.places[t].next
            case Block => p == Blocked(op)
            case Retry => p == Trying(op)
            case GiveUp => p == if op.Send? || op.Overwrite? then Idle else Expired(op)
  {
  }

  /** Unlocking wakes, from the front of the list, as many waiters as events were
      counted, or all of them if there are fewer. */
  lemma {:induction false} UnlockWakesAsCounted(e: End)
    ensures var n := if e.lock <= 0 then 0 else if e.lock < |e.waiting| then e.lock else |e.waiting|;
            && UnlockEnd(e).waiting == e.waiting[n..] && UnlockEnd(e).lock == -1
            && UnlockEnd(e).woken == e.woken + set t | t in e.waiting[..n]
    decreases if e.lock > 0 then e.lock else 0
  {
    if e.lock > 0 && e.waiting != [] {
      var next := WakeFirst(e).(lock := e.lock - 1);
      var n := if e.lock < |e.waiting| then e.lock else |e.waiting|;
      UnlockWakesAsCounted(next);
      assert e.waiting[..n] == [e.waiting[0]] + e.waiting[1..][..n-1];
    }
  }

  /** An event from an interrupt wakes the first waiter if the queue is not locked, and
      is counted in the lock if it is; and it comes to nothing exactly when the queue
      does not let it through. */
  lemma InterruptAchieves(q: Queue, overwrite: bool)
    ensures Enabled(q, SendFromISR(overwrite)) ==>
              var q' := Apply(q, SendFromISR(overwrite));
              && q'.places == q.places && q'.senders == q.senders
              && if q.messages >= q.length && !overwrite then q' == q
                 else if q.receivers.lock == -1 then FirstIsWoken(q.receivers, q'.receivers)
                 else q'.receivers == q.receivers.(lock := q.receivers.lock + 1)
    ensures Enabled(q, ReceiveFromISR) ==>
              var q' := Apply(q, ReceiveFromISR);
              && q'.places == q.places && q'.receivers == q.receivers
              && if q.messages == 0 then q' == q
                 else if q.senders.lock == -1 then FirstIsWoken(q.senders, q'.senders)
                 else q'.senders == q.senders.(lock := q.senders.lock + 1)
  {
  }
}

/** tasks.c: what priority inheritance does to the priorities in a task control
    block. */
module Inheritance {

  datatype TCB = TCB(priority: nat, basePriority: nat, mutexesHeld: nat)

  function Max(a: nat, b: nat): nat {
    if a < b then b else a
  }

  /** xTaskPriorityInherit: the holder rises to a blocking task's priority. */
  function Inherit(holder: TCB, blocking: nat): TCB {
    if holder.priority < blocking then holder.(priority := blocking) else holder
  }

  /** The result of xTaskPriorityInherit: the holder runs, now or already, at a
      priority it owes to the blocking task or to an earlier one. */
  predicate InheritanceOccurred(holder: TCB, blocking: nat) {
    holder.priority < blocking || holder.basePriority < blocking
  }

  /** xTaskPriorityDisinherit: one mutex is given back; the base priority returns
      with the last. */
  function Disinherit(t: TCB): TCB
    requires t.mutexesHeld > 0
  {
    TCB(if t.mutexesHeld == 1 then t.basePriority else t.priority, t.basePriority, t.mutexesHeld - 1)
  }

  /** vTaskPriorityDisinheritAfterTimeout: a holder of one mutex only falls back
      to the highest priority still waiting. */
  function DisinheritAfterTimeout(t: TCB, highestWaiting: nat): TCB {
    if t.mutexesHeld == 1 then t.(priority := Max(t.basePriority, highestWaiting)) else t
  }
}

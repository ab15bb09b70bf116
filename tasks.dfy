// Periodic tasks as the simulator and the schedulability tests receive them:
// a pair (execution time, period), identified by its position in the list.
module Tasks {

  /** One periodic task: it needs `exec` time units of processor in every
      window of `period` time units. */
  datatype Task = Task(exec: int, period: int)

  /** Every period is positive. A zero period makes the source divide by zero
      (utilization) or take a remainder by zero (period-boundary test). */
  predicate ValidPeriods(ts: seq<Task>)
  {
    forall i :: 0 <= i < |ts| ==> ts[i].period > 0
  }

  /** Every execution time is non-negative. */
  predicate NonNegativeExec(ts: seq<Task>)
  {
    forall i :: 0 <= i < |ts| ==> ts[i].exec >= 0
  }
}

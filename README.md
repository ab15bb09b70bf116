# Real-time scheduling simulator: a verified model

The program checks whether a set of periodic tasks is schedulable on one
processor and simulates the schedule over a finite horizon. Each task is a
pair (execution time, period) and is known by its position in the list.

- **Schedulability tests.** The Earliest Deadline First (EDF) test accepts a
  task set when its total utilization, the sum of exec/period, is at most 1.
  The Rate Monotonic (RM) test accepts it when the utilization is at most the
  Liu and Layland bound n * (2^(1/n) - 1).
- **Simulator.** Time advances in unit slots. At the start of every slot,
  each task whose period divides the current time is released: its budget
  is refilled to its execution time and its deadline becomes time + period.
  The ready tasks are those with budget left. If any task is ready, the one
  with the least key runs for the slot:
  - the key is the period under RM and the current deadline under EDF;
  - on a tie, the lowest index wins.

  The slot is then recorded as an event (time, 1, task) and one unit of
  that task's budget is taken. An idle slot records nothing. The default
  horizon is three times the largest period.

The Dafny modules follow that structure:

- `Tasks`: the task datatype and the well-formedness predicates (periods
  positive, execution times non-negative).
- `Analysis`: exact (rational) utilization, the EDF and RM tests, the Liu
  and Layland bound, and the program's predefined task sets as test
  vectors.
- `Scheduler`: the slot semantics as functions. `Refresh` releases the due
  tasks, `Ready` collects the tasks with budget, `Select` picks the task to
  run, `StepAt` runs one slot, and `RunFor`/`Trace` run the first h slots.
- `Simulator`: the simulation loop as the program runs it. Budgets and
  deadlines live in arrays updated in place, and the events are a growing
  list. `Simulate` is proved to return exactly `Trace`.
- `TraceProperties`: what every trace satisfies. It covers the outcome of a
  slot, the order and range of events, the priority rules, budget and
  deadline invariants, at most exec runs per period window, and
  independence of the horizon.

## Model

| member | source | states |
|---|---|---|
| Analysis.Utilization | main.py:11 | definition: the exact sum of exec/period over the task list, the sum the program computes for both tests |
| Analysis.IsLiuLaylandBound | main.py:12 | definition: b is the bound n * (2^(1/n) - 1) for n > 0 tasks, characterised as 1 + b/n > 0 with (1 + b/n)^n == 2 |
| Analysis.EdfTest | main.py:15-23 | the verdict carries the utilization (sum of exec/period) and is feasible exactly when it is at most 1 |
| Analysis.RmTest | main.py:3-13 | given the Liu and Layland bound for the number of tasks, the verdict carries the utilization and is feasible exactly when it is at most that bound |
| Analysis.UtilizationNonNegative | main.py:22 | with non-negative execution times the utilization is non-negative |
| Analysis.UtilizationReplace | main.py:11 | replacing one task changes the utilization by exactly the difference of the two tasks' shares |
| Analysis.UtilizationMonotoneInExec | main.py:22 | raising one execution time never lowers the utilization |
| Analysis.UtilizationMonotoneInPeriod | main.py:22 | shortening one period (with a non-negative execution time) never lowers the utilization |
| Analysis.UtilizationAppend | main.py:22 | the utilization of a concatenation is the sum of the utilizations |
| Analysis.UtilizationOrderIndependent | main.py:22 | any two task lists with the same tasks (equal multisets), in whatever order, have the same utilization |
| Analysis.UtilizationWithout | main.py:22 | the utilization is the share of any one task plus the utilization of the list without it |
| Analysis.EdfFeasibleClosedUnderLessWork | main.py:23 | a set the EDF test accepts stays accepted when an execution time is lowered |
| Analysis.Bernoulli | main.py:12 | (1 + y)^n >= 1 + n*y for y >= -1, the inequality behind the range of the bound |
| Analysis.LiuLaylandBoundRange | main.py:12 | the bound n * (2^(1/n) - 1) lies in (0, 1] |
| Analysis.LiuLaylandBoundUnique | main.py:12 | the characterisation of the bound admits at most one value per n |
| Analysis.LiuLaylandBoundForOneTask | main.py:12 | for one task the bound is exactly 1 |
| Analysis.RmFeasibleImpliesEdfFeasible | main.py:13 | every set the RM test accepts is accepted by the EDF test |
| Analysis.RmFeasibleSetPasses | main.py:104-108 | the set (1,8),(2,12),(3,24) has utilization 5/12 and passes the RM test |
| Analysis.RmInfeasibleSetFails | main.py:109-113 | the set (3,8),(4,12),(5,24) has utilization 11/12, fails the RM test and passes the EDF test |
| Analysis.EdfFeasibleSetPasses | main.py:114-118 | the set (3,6),(2,8),(3,12) has utilization exactly 1 and passes the EDF test |
| Analysis.EdfInfeasibleSetFails | main.py:119-123 | the set (4,6),(3,8),(4,12) has utilization 11/8 and fails the EDF test |
| Scheduler.ParseDiscipline | main.py:50-53 | "RM" selects RM, "EDF" selects EDF, and any other tag selects nothing |
| Scheduler.MaxPeriod | main.py:38 | the result is at least every period and equal to one of them |
| Scheduler.DefaultHorizon | main.py:38 | the horizon is at least three periods of every task and exactly three periods of some task |
| Scheduler.Initial | main.py:41-43 | before the first slot every budget is 0 and every deadline is the task's period |
| Scheduler.Refresh | main.py:58-61 | a task whose period divides t gets its full budget and deadline t + period; every other task keeps its state |
| Scheduler.ReadyFrom | main.py:64 | the result holds exactly the indices from lo on whose budget is positive, in strictly ascending order |
| Scheduler.Ready | main.py:64 | the result holds exactly the indices with positive budget, in strictly ascending order |
| Scheduler.Priority | main.py:51-53 | definition: the key of `min`, the task's period under RM and its current deadline under EDF |
| Scheduler.FirstMinPos | main.py:51 | the position returned has the least key in the list, and every earlier position has a strictly larger key (first minimum) |
| Scheduler.Select | main.py:48-53 | the chosen task is ready, its key is least among the ready tasks, and every ready task of lower index has a strictly larger key |
| Scheduler.FirstMinIsLeastReady | main.py:51-53 | a first minimum of the ascending ready list is a least-key ready task, and it has the lowest index among those with that key |
| Scheduler.StepAt | main.py:57-74 | definition of one loop iteration: the releases of `Refresh`, then no event when no task is ready, otherwise the event (t, 1, j) for j = `Select`'s choice and one unit off j's budget; the state keeps one budget and one deadline per task |
| Scheduler.RunFor | main.py:56-74 | definition of the loop: `StepAt` applied to slots 0 .. h - 1 from the initial state; the state keeps one budget and one deadline per task |
| Scheduler.Trace | main.py:56-74 | definition: the event list of `RunFor` after h slots, the list the chart draws |
| Simulator.ReleaseDue | main.py:58-61 | after the in-place loop over the tasks, the arrays hold the released state `Refresh` defines |
| Simulator.Start | main.py:41-43 | fresh, distinct arrays holding the initial state |
| Simulator.Slot | main.py:57-74 | one iteration of the loop turns the arrays and the event list into the snapshot `StepAt` defines |
| Simulator.Simulate | main.py:41-74 | the loop returns exactly the events of `Trace` for the horizon |
| Simulator.GanttTrace | main.py:38-74 | the horizon is three times the largest period and the events are those of `Trace` over it |
| TraceProperties.IdleStep | main.py:72-74 | when no task holds budget after the releases, nothing is recorded and the state is the released one |
| TraceProperties.BusyStep | main.py:66-71 | otherwise one event (t, 1, j) is appended, task j held budget, only its budget drops by one, and deadlines are unchanged |
| TraceProperties.SlotOutcome | main.py:63-74 | each slot of a run is either idle (no event, state as released) or records exactly one event for a task that held budget and takes one unit from that task alone |
| TraceProperties.RmPicksShortestPeriod | main.py:50-51 | under RM the task run in a slot has the shortest period among the ready tasks, and every lower-indexed ready task has a strictly longer one |
| TraceProperties.EdfPicksEarliestDeadline | main.py:52-53 | under EDF the task run in a slot has the earliest deadline among the ready tasks, and every lower-indexed ready task has a strictly later one |
| TraceProperties.TraceWellOrdered | main.py:56-74 | at most h events; each lies in [0, h), lasts one slot and names a task; start times strictly increase |
| TraceProperties.TracePrefix | main.py:56 | a longer horizon only appends events, all starting at or after the shorter horizon |
| TraceProperties.BeforeKeepsEarlier | main.py:56 | keeping the events before h leaves a trace whose events all start before h unchanged |
| TraceProperties.TraceRestriction | main.py:56 | the trace over h is the trace over any longer horizon restricted to events starting before h |
| TraceProperties.SameWindowAsPrevious | main.py:59 | off a period boundary, the previous slot lies in the same period window |
| TraceProperties.DeadlineIsWindowEnd | main.py:59-61 | after the releases of slot t, each deadline is the end of the period window that contains t |
| TraceProperties.DeadlineCarriedOver | main.py:59-61 | off a period boundary a task keeps the deadline it had in the previous slot |
| TraceProperties.BudgetWithinExec | main.py:60-70 | with non-negative execution times every budget stays within [0, exec], before and after the releases |
| TraceProperties.DispatchAccounting | main.py:68-70 | a slot takes one unit from a task's budget per event of that task it records |
| TraceProperties.BudgetAccounting | main.py:58-70 | after a slot, a task's budget is its execution time minus the number of its events since its current window started |
| TraceProperties.RunsSinceWindowStart | main.py:58-70 | a task has run at most exec times since its current window started |
| TraceProperties.AtMostExecPerWindow | main.py:58-70 | in every window [k*p, k*p + p) of its period p, a task runs at most exec times, whatever the horizon |

## Left out

- The Gantt chart drawing with matplotlib and the interactive menu are left out. They are I/O; the model returns the event list that the chart draws.
- The predefined task sets appear only as test vectors in `Analysis`. The fifth, mixed set is not checked.
- Utilization is an exact rational sum, not a floating-point one. A set whose float sum rounds across a bound may get a different verdict.
- Analysis.RmTest: takes the Liu and Layland bound as a parameter characterised by (1 + b/n)^n == 2, because Dafny has no real n-th root. With n = 0 there is no such bound; the source divides by zero there.
- Periods must be positive throughout. A zero period makes the source divide or take a remainder by zero. Negative periods, which the source accepts with Python's floored remainder, are not modelled.
- Scheduler.DefaultHorizon: requires a non-empty task list, because the source's maximum over an empty list raises an error.
- An unknown tag makes the dispatcher return no task, so the first busy slot fails in the source. The model parses the tag with `Scheduler.ParseDiscipline` and simulates only RM or EDF. The program's menu passes only those two tags.
- Deadline misses are not detected or reported, as in the source. Left-over budget is dropped silently when the task is released again.
- The simulator's dictionaries keyed by task index are modelled as arrays indexed by the same positions.
- A task with exec equal to its period can starve a lower-priority task. That is an example outcome, not a general law, and it is not stated as a lemma.
- The RM non-schedulable set's utilization is 3/8 + 4/12 + 5/24 = 11/12 (about 0.917), as `Analysis.RmInfeasibleSetFails` proves.

// The simulation loop as the program runs it: per-task budgets and
// deadlines held in arrays updated in place, a list of events that grows
// by one entry per busy slot, and a clock that advances one unit per
// iteration until the horizon. Each method is proved to compute the
// reference semantics of module Scheduler.
module Simulator {
  import opened Tasks
  import opened Scheduler

  /** Phase 1 of a slot, in place: the loop over all tasks that releases
      those whose period divides t. */
  method ReleaseDue(ts: seq<Task>, budget: array<int>, deadline: array<int>, t: nat)
    requires ValidPeriods(ts)
    requires budget.Length == |ts| && deadline.Length == |ts| && budget != deadline
    modifies budget, deadline
    ensures State(budget[..], deadline[..]) == Refresh(ts, State(old(budget[..]), old(deadline[..])), t)
  {
    ghost var before := State(budget[..], deadline[..]);
    for i := 0 to |ts|
      invariant forall k :: 0 <= k < i ==>
                  budget[k] == Refresh(ts, before, t).budget[k] &&
                  deadline[k] == Refresh(ts, before, t).deadline[k]
      invariant forall k :: i <= k < |ts| ==>
                  budget[k] == before.budget[k] && deadline[k] == before.deadline[k]
    {
      if t % ts[i].period == 0 {
        budget[i] := ts[i].exec;
        deadline[i] := t + ts[i].period;
      }
    }
  }

  /** One slot at time t, in place: release, then dispatch the task of
      highest priority for the slot, recording it and taking one unit of its
      budget, or stay idle. */
  method Slot(ts: seq<Task>, d: Discipline, budget: array<int>, deadline: array<int>,
              events: seq<Event>, t: nat) returns (events': seq<Event>)
    requires ValidPeriods(ts)
    requires budget.Length == |ts| && deadline.Length == |ts| && budget != deadline
    modifies budget, deadline
    ensures Snapshot(State(budget[..], deadline[..]), events') ==
            StepAt(ts, d, Snapshot(State(old(budget[..]), old(deadline[..])), events), t)
  {
    ReleaseDue(ts, budget, deadline, t);
    events' := events;
    var ready := Ready(budget[..]);
    if ready != [] {
      var current := Select(d, ts, State(budget[..], deadline[..]));
      events' := events + [Event(t, 1, current)];
      budget[current] := budget[current] - 1;
    }
  }

  /** The arrays before the first slot: no budget, and each first deadline
      is the task's period. */
  method Start(ts: seq<Task>) returns (budget: array<int>, deadline: array<int>)
    ensures fresh(budget) && fresh(deadline) && budget != deadline
    ensures State(budget[..], deadline[..]) == Initial(ts)
  {
    var n := |ts|;
    budget := new int[n](i => 0);
    deadline := new int[n](i requires 0 <= i < n => ts[i].period);
  }

  /** Replays the task set over the slots 0 .. horizon - 1 and returns the
      events in the order they were recorded. */
  method Simulate(ts: seq<Task>, d: Discipline, horizon: nat) returns (events: seq<Event>)
    requires ValidPeriods(ts)
    ensures events == Trace(ts, d, horizon)
  {
    var budget, deadline := Start(ts);
    events := [];
    var time: nat := 0;
    while time < horizon
      invariant time <= horizon
      invariant budget.Length == |ts| && deadline.Length == |ts| && budget != deadline
      invariant RunFor(ts, d, time) == Snapshot(State(budget[..], deadline[..]), events)
    {
      events := Slot(ts, d, budget, deadline, events, time);
      time := time + 1;
    }
  }

  /** The program's run: the horizon is three periods of the slowest task,
      and the caller receives the horizon with the events. */
  method GanttTrace(ts: seq<Task>, d: Discipline) returns (horizon: nat, events: seq<Event>)
    requires |ts| > 0 && ValidPeriods(ts)
    ensures horizon == DefaultHorizon(ts)
    ensures events == Trace(ts, d, horizon)
  {
    horizon := DefaultHorizon(ts);
    events := Simulate(ts, d, horizon);
  }
}

// The slot-by-slot semantics of the scheduling simulator, as functions.
// Each unit time slot t runs four phases: release the tasks whose period
// divides t, collect the ready tasks, dispatch the one of highest priority
// for the slot, advance to t + 1. The imperative simulator in module
// Simulator is proved to compute exactly `Trace`.
module Scheduler {
  import opened Tasks

  datatype Option<T> = None | Some(value: T)

  /** The two dispatching disciplines. */
  datatype Discipline = RM | EDF

  /** The discipline tag as the program spells it; any other tag selects
      nothing. */
  function ParseDiscipline(tag: string): (r: Option<Discipline>)
    ensures r == Some(RM) <==> tag == "RM"
    ensures r == Some(EDF) <==> tag == "EDF"
    ensures r.None? <==> tag != "RM" && tag != "EDF"
  {
    if tag == "RM" then Some(RM) else if tag == "EDF" then Some(EDF) else None
  }

  /** Task `task` ran during the slot [start, start + duration). */
  datatype Event = Event(start: nat, duration: nat, task: nat)

  /** Per-task run-time state: execution budget left in the current period
      and absolute deadline of the current period. */
  datatype State = State(budget: seq<int>, deadline: seq<int>)

  /** The state reached and the events recorded so far. */
  datatype Snapshot = Snapshot(state: State, trace: seq<Event>)

  predicate Fits(ts: seq<Task>, st: State)
  {
    |st.budget| == |ts| && |st.deadline| == |ts|
  }

  /** Largest period of a non-empty task list. */
  function MaxPeriod(ts: seq<Task>): (m: int)
    requires |ts| > 0
    ensures forall i :: 0 <= i < |ts| ==> ts[i].period <= m
    ensures exists i :: 0 <= i < |ts| && ts[i].period == m
  {
    if |ts| == 1 then ts[0].period
    else
      var rest := MaxPeriod(ts[1..]);
      assert forall i :: 1 <= i < |ts| ==> ts[i] == ts[1..][i - 1];
      if ts[0].period > rest then ts[0].period else rest
  }

  /** The program's horizon: three periods of the slowest task. */
  function DefaultHorizon(ts: seq<Task>): (h: nat)
    requires |ts| > 0 && ValidPeriods(ts)
    ensures forall i :: 0 <= i < |ts| ==> 3 * ts[i].period <= h
    ensures exists i :: 0 <= i < |ts| && h == 3 * ts[i].period
  {
    3 * MaxPeriod(ts)
  }

  /** Before the first slot: no budget, and each first deadline is the
      task's period. */
  function Initial(ts: seq<Task>): (st: State)
    ensures Fits(ts, st)
    ensures forall i :: 0 <= i < |ts| ==> st.budget[i] == 0 && st.deadline[i] == ts[i].period
  {
    State(seq(|ts|, i => 0), seq(|ts|, i requires 0 <= i < |ts| => ts[i].period))
  }

  /** Phase 1: every task whose period divides t is released, with its full
      budget and the deadline t + period; any budget left over is dropped.
      The other tasks keep their state. */
  function Refresh(ts: seq<Task>, st: State, t: nat): (r: State)
    requires ValidPeriods(ts) && Fits(ts, st)
    ensures Fits(ts, r)
    ensures forall i :: 0 <= i < |ts| && t % ts[i].period == 0 ==>
              r.budget[i] == ts[i].exec && r.deadline[i] == t + ts[i].period
    ensures forall i :: 0 <= i < |ts| && t % ts[i].period != 0 ==>
              r.budget[i] == st.budget[i] && r.deadline[i] == st.deadline[i]
  {
    State(
      seq(|ts|, i requires 0 <= i < |ts| =>
        if t % ts[i].period == 0 then ts[i].exec else st.budget[i]),
      seq(|ts|, i requires 0 <= i < |ts| =>
        if t % ts[i].period == 0 then t + ts[i].period else st.deadline[i]))
  }

  /** The ready tasks at or after index `lo`, in ascending index order. */
  function ReadyFrom(budget: seq<int>, lo: nat): (r: seq<nat>)
    requires lo <= |budget|
    decreases |budget| - lo
    ensures forall x: int :: x in r <==> lo <= x < |budget| && budget[x] > 0
    ensures forall j, k :: 0 <= j < k < |r| ==> r[j] < r[k]
  {
    if lo == |budget| then []
    else
      var rest := ReadyFrom(budget, lo + 1);
      assert forall k :: 0 <= k < |rest| ==> rest[k] in rest;
      (if budget[lo] > 0 then [lo] else []) + rest
  }

  /** Phase 2: the tasks with budget left, in ascending index order. */
  function Ready(budget: seq<int>): (r: seq<nat>)
    ensures forall x: int :: x in r <==> 0 <= x < |budget| && budget[x] > 0
    ensures forall j, k :: 0 <= j < k < |r| ==> r[j] < r[k]
  {
    ReadyFrom(budget, 0)
  }

  /** The dispatching key: the period under RM, the current deadline under
      EDF. The smaller key wins. */
  function Priority(d: Discipline, ts: seq<Task>, deadline: seq<int>, i: nat): (k: int)
    requires i < |ts| && i < |deadline|
  {
    match d
    case RM => ts[i].period
    case EDF => deadline[i]
  }

  /** Position in `ready` of the element with the least key, the first one
      on ties: the left-to-right scan that keeps the current best unless a
      strictly smaller key comes along. */
  function FirstMinPos(d: Discipline, ts: seq<Task>, deadline: seq<int>, ready: seq<nat>): (p: nat)
    requires |ready| > 0
    requires forall k :: 0 <= k < |ready| ==> ready[k] < |ts| && ready[k] < |deadline|
    ensures p < |ready|
    ensures forall k :: 0 <= k < |ready| ==>
              Priority(d, ts, deadline, ready[p]) <= Priority(d, ts, deadline, ready[k])
    ensures forall k :: 0 <= k < p ==>
              Priority(d, ts, deadline, ready[p]) < Priority(d, ts, deadline, ready[k])
  {
    var n := |ready|;
    if n == 1 then 0
    else
      var best := FirstMinPos(d, ts, deadline, ready[..n - 1]);
      assert ready[..n - 1][best] == ready[best];
      assert forall k :: 0 <= k < n - 1 ==> ready[..n - 1][k] == ready[k];
      if Priority(d, ts, deadline, ready[n - 1]) < Priority(d, ts, deadline, ready[best])
      then n - 1 else best
  }

  /** Phase 3, the choice: among the ready tasks, one with the least key,
      and the lowest index among those with that key. */
  function Select(d: Discipline, ts: seq<Task>, st: State): (j: nat)
    requires Fits(ts, st) && Ready(st.budget) != []
    ensures j < |ts| && st.budget[j] > 0
    ensures forall i :: 0 <= i < |ts| && st.budget[i] > 0 ==>
              Priority(d, ts, st.deadline, j) <= Priority(d, ts, st.deadline, i)
    ensures forall i :: 0 <= i < j && st.budget[i] > 0 ==>
              Priority(d, ts, st.deadline, j) < Priority(d, ts, st.deadline, i)
  {
    var ready := Ready(st.budget);
    assert forall k :: 0 <= k < |ready| ==> ready[k] in ready;
    var p := FirstMinPos(d, ts, st.deadline, ready);
    FirstMinIsLeastReady(d, ts, st, ready, p);
    ready[p]
  }

  /** A first least-key position of the ascending ready list names a task
      whose key is least among all ready tasks and strictly less than the
      key of every ready task with a lower index. */
  lemma FirstMinIsLeastReady(d: Discipline, ts: seq<Task>, st: State, ready: seq<nat>, p: nat)
    requires Fits(ts, st) && ready == Ready(st.budget) && p < |ready|
    requires forall k :: 0 <= k < |ready| ==> ready[k] < |ts|
    requires forall k :: 0 <= k < |ready| ==>
               Priority(d, ts, st.deadline, ready[p]) <= Priority(d, ts, st.deadline, ready[k])
    requires forall k :: 0 <= k < p ==>
               Priority(d, ts, st.deadline, ready[p]) < Priority(d, ts, st.deadline, ready[k])
    ensures ready[p] < |ts| && st.budget[ready[p]] > 0
    ensures forall i :: 0 <= i < |ts| && st.budget[i] > 0 ==>
              Priority(d, ts, st.deadline, ready[p]) <= Priority(d, ts, st.deadline, i)
    ensures forall i :: 0 <= i < ready[p] && st.budget[i] > 0 ==>
              Priority(d, ts, st.deadline, ready[p]) < Priority(d, ts, st.deadline, i)
  {
    assert ready[p] in ready;
    forall i | 0 <= i < |ts| && st.budget[i] > 0
      ensures Priority(d, ts, st.deadline, ready[p]) <= Priority(d, ts, st.deadline, i)
      ensures i < ready[p] ==> Priority(d, ts, st.deadline, ready[p]) < Priority(d, ts, st.deadline, i)
    {
      assert i in ready;
      var k :| 0 <= k < |ready| && ready[k] == i;
      if i < ready[p] {
        assert k < p;
      }
    }
  }

  /** One slot at time t: release, then either dispatch one task for the
      slot (record it, take one unit of its budget) or stay idle. */
  function StepAt(ts: seq<Task>, d: Discipline, s: Snapshot, t: nat): (r: Snapshot)
    requires ValidPeriods(ts) && Fits(ts, s.state)
    ensures Fits(ts, r.state)
  {
    var st := Refresh(ts, s.state, t);
    if Ready(st.budget) == [] then Snapshot(st, s.trace)
    else
      var j := Select(d, ts, st);
      Snapshot(State(st.budget[j := st.budget[j] - 1], st.deadline), s.trace + [Event(t, 1, j)])
  }

  /** The first `h` slots, 0 to h - 1. */
  function RunFor(ts: seq<Task>, d: Discipline, h: nat): (r: Snapshot)
    requires ValidPeriods(ts)
    ensures Fits(ts, r.state)
    decreases h
  {
    if h == 0 then Snapshot(Initial(ts), [])
    else StepAt(ts, d, RunFor(ts, d, h - 1), h - 1)
  }

  /** The events recorded over the horizon `h`. */
  function Trace(ts: seq<Task>, d: Discipline, h: nat): (tr: seq<Event>)
    requires ValidPeriods(ts)
  {
    RunFor(ts, d, h).trace
  }
}

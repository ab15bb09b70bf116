// What the simulator guarantees about the trace it records: the outcome of
// each slot, the order and range of the events, the priority rule of each
// discipline, the bounds on budgets and deadlines, at most `exec` dispatches
// of a task in any window of its period, and independence of the horizon.
module TraceProperties {
  import opened Tasks
  import opened Scheduler

  /** The state of slot t once its releases are done, just before dispatch. */
  function Released(ts: seq<Task>, d: Discipline, t: nat): (st: State)
    requires ValidPeriods(ts)
    ensures Fits(ts, st)
  {
    Refresh(ts, RunFor(ts, d, t).state, t)
  }

  /** Start of the period window of length p that contains t. */
  function WindowStart(t: nat, p: int): (w: int)
    requires p > 0
  {
    t - t % p
  }

  /** Number of events of task i in `tr` that start in [lo, hi). */
  function CountIn(tr: seq<Event>, i: nat, lo: int, hi: int): (c: nat)
  {
    if tr == [] then 0
    else
      var e := tr[|tr| - 1];
      CountIn(tr[..|tr| - 1], i, lo, hi) + (if e.task == i && lo <= e.start < hi then 1 else 0)
  }

  /** The events of `tr` that start before h, in order. */
  function Before(tr: seq<Event>, h: nat): (r: seq<Event>)
  {
    if tr == [] then []
    else
      var e := tr[|tr| - 1];
      Before(tr[..|tr| - 1], h) + (if e.start < h then [e] else [])
  }

  // ---------------------------------------------------------------------
  // One slot

  /** No task holds budget. */
  predicate Idle(budget: seq<int>)
  {
    forall i :: 0 <= i < |budget| ==> budget[i] <= 0
  }

  /** A slot in which no task holds budget once the releases are done is
      idle: nothing is recorded and the state is the released one. */
  lemma IdleStep(ts: seq<Task>, d: Discipline, s: Snapshot, t: nat)
    requires ValidPeriods(ts) && Fits(ts, s.state)
    requires Idle(Refresh(ts, s.state, t).budget)
    ensures StepAt(ts, d, s, t) == Snapshot(Refresh(ts, s.state, t), s.trace)
  {
  }

  /** Otherwise exactly one event (t, 1, j) is appended, task j held budget,
      and only j's budget changes, by one. */
  lemma BusyStep(ts: seq<Task>, d: Discipline, s: Snapshot, t: nat)
    requires ValidPeriods(ts) && Fits(ts, s.state)
    requires !Idle(Refresh(ts, s.state, t).budget)
    ensures var st, after := Refresh(ts, s.state, t), StepAt(ts, d, s, t);
            |after.trace| == |s.trace| + 1 && after.trace[..|s.trace|] == s.trace &&
            var j := after.trace[|s.trace|].task;
            after.trace[|s.trace|] == Event(t, 1, j) && j < |ts| && st.budget[j] > 0 &&
            after.state.budget == st.budget[j := st.budget[j] - 1] &&
            after.state.deadline == st.deadline
  {
    var st := Refresh(ts, s.state, t);
    var i :| 0 <= i < |ts| && st.budget[i] > 0;
    assert i in Ready(st.budget);
    var j := Select(d, ts, st);
    assert StepAt(ts, d, s, t).trace == s.trace + [Event(t, 1, j)];
  }

  /** Slot t of a run: idle when no task holds budget after the releases,
      otherwise one event for a task that held budget, whose budget alone
      drops by one; deadlines are those the releases left. */
  lemma SlotOutcome(ts: seq<Task>, d: Discipline, t: nat)
    requires ValidPeriods(ts)
    ensures var st, before, after := Released(ts, d, t), Trace(ts, d, t), RunFor(ts, d, t + 1);
            (Idle(st.budget) ==> after.trace == before && after.state == st) &&
            (!Idle(st.budget) ==>
               |after.trace| == |before| + 1 && after.trace[..|before|] == before &&
               var j := after.trace[|before|].task;
               after.trace[|before|] == Event(t, 1, j) && j < |ts| && st.budget[j] > 0 &&
               after.state.budget == st.budget[j := st.budget[j] - 1] &&
               after.state.deadline == st.deadline)
  {
    var s := RunFor(ts, d, t);
    if Idle(Released(ts, d, t).budget) {
      IdleStep(ts, d, s, t);
    } else {
      BusyStep(ts, d, s, t);
    }
  }

  /** Under RM the task dispatched in slot t has the shortest period among
      the tasks holding budget, and every lower-indexed such task has a
      strictly longer period. */
  lemma RmPicksShortestPeriod(ts: seq<Task>, t: nat)
    requires ValidPeriods(ts)
    ensures var st, before, after := Released(ts, RM, t), Trace(ts, RM, t), Trace(ts, RM, t + 1);
            |after| == |before| + 1 ==>
              var j := after[|before|].task;
              j < |ts| &&
              (forall i :: 0 <= i < |ts| && st.budget[i] > 0 ==> ts[j].period <= ts[i].period) &&
              (forall i :: 0 <= i < j && st.budget[i] > 0 ==> ts[j].period < ts[i].period)
  {
  }

  /** Under EDF the task dispatched in slot t has the earliest deadline among
      the tasks holding budget, and every lower-indexed such task has a
      strictly later deadline. */
  lemma EdfPicksEarliestDeadline(ts: seq<Task>, t: nat)
    requires ValidPeriods(ts)
    ensures var st, before, after := Released(ts, EDF, t), Trace(ts, EDF, t), Trace(ts, EDF, t + 1);
            |after| == |before| + 1 ==>
              var j := after[|before|].task;
              j < |ts| &&
              (forall i :: 0 <= i < |ts| && st.budget[i] > 0 ==> st.deadline[j] <= st.deadline[i]) &&
              (forall i :: 0 <= i < j && st.budget[i] > 0 ==> st.deadline[j] < st.deadline[i])
  {
  }

  // ---------------------------------------------------------------------
  // The whole trace

  /** Every event lies in [0, h), lasts one slot and names a task; start
      times strictly increase, so no slot holds two events. */
  lemma {:induction false} TraceWellOrdered(ts: seq<Task>, d: Discipline, h: nat)
    requires ValidPeriods(ts)
    ensures var tr := Trace(ts, d, h);
            |tr| <= h &&
            (forall k :: 0 <= k < |tr| ==> tr[k].start < h && tr[k].duration == 1 && tr[k].task < |ts|) &&
            (forall j, k :: 0 <= j < k < |tr| ==> tr[j].start < tr[k].start)
  {
    if h > 0 {
      var t := h - 1;
      TraceWellOrdered(ts, d, t);
      WellOrderedStep(ts, d, t);
      assert t + 1 == h;
    }
  }

  lemma WellOrderedStep(ts: seq<Task>, d: Discipline, t: nat)
    requires ValidPeriods(ts)
    requires var tr := Trace(ts, d, t);
             |tr| <= t &&
             (forall k :: 0 <= k < |tr| ==> tr[k].start < t && tr[k].duration == 1 && tr[k].task < |ts|) &&
             (forall j, k :: 0 <= j < k < |tr| ==> tr[j].start < tr[k].start)
    ensures var tr := Trace(ts, d, t + 1);
            |tr| <= t + 1 &&
            (forall k :: 0 <= k < |tr| ==> tr[k].start < t + 1 && tr[k].duration == 1 && tr[k].task < |ts|) &&
            (forall j, k :: 0 <= j < k < |tr| ==> tr[j].start < tr[k].start)
  {
    SlotOutcome(ts, d, t);
  }

  /** Simulating longer only appends events, and every appended event
      starts at or after the shorter horizon. */
  lemma {:induction false} TracePrefix(ts: seq<Task>, d: Discipline, h: nat, h2: nat)
    requires ValidPeriods(ts) && h <= h2
    ensures var short, long := Trace(ts, d, h), Trace(ts, d, h2);
            short <= long &&
            forall k :: |short| <= k < |long| ==> long[k].start >= h
    decreases h2
  {
    if h < h2 {
      var t := h2 - 1;
      TracePrefix(ts, d, h, t);
      PrefixStep(ts, d, h, t);
      assert t + 1 == h2;
    }
  }

  lemma PrefixStep(ts: seq<Task>, d: Discipline, h: nat, t: nat)
    requires ValidPeriods(ts) && h <= t
    requires var short, long := Trace(ts, d, h), Trace(ts, d, t);
             short <= long &&
             forall k :: |short| <= k < |long| ==> long[k].start >= h
    ensures var short, long := Trace(ts, d, h), Trace(ts, d, t + 1);
            short <= long &&
            forall k :: |short| <= k < |long| ==> long[k].start >= h
  {
    SlotOutcome(ts, d, t);
  }

  lemma {:induction false} BeforeKeepsEarlier(tr: seq<Event>, h: nat)
    requires forall k :: 0 <= k < |tr| ==> tr[k].start < h
    ensures Before(tr, h) == tr
  {
    if tr != [] {
      BeforeKeepsEarlier(tr[..|tr| - 1], h);
    }
  }

  /** The trace over horizon h is the trace over any longer horizon h2,
      restricted to the events that start before h. */
  lemma {:induction false} TraceRestriction(ts: seq<Task>, d: Discipline, h: nat, h2: nat)
    requires ValidPeriods(ts) && h <= h2
    ensures Before(Trace(ts, d, h2), h) == Trace(ts, d, h)
    decreases h2
  {
    if h == h2 {
      TraceWellOrdered(ts, d, h);
      BeforeKeepsEarlier(Trace(ts, d, h), h);
    } else {
      var t := h2 - 1;
      TraceRestriction(ts, d, h, t);
      RestrictionStep(ts, d, h, t);
      assert t + 1 == h2;
    }
  }

  lemma RestrictionStep(ts: seq<Task>, d: Discipline, h: nat, t: nat)
    requires ValidPeriods(ts) && h <= t
    requires Before(Trace(ts, d, t), h) == Trace(ts, d, h)
    ensures Before(Trace(ts, d, t + 1), h) == Trace(ts, d, h)
  {
    SlotOutcome(ts, d, t);
    var prev, tr := Trace(ts, d, t), Trace(ts, d, t + 1);
    if tr != prev {
      assert tr[..|tr| - 1] == prev;
    }
  }

  // ---------------------------------------------------------------------
  // Deadlines and budgets

  lemma MulAtLeast(a: int, p: int)
    requires a >= 1 && p > 0
    ensures a * p >= p
  {
  }

  /** Quotient and remainder are determined by x == q * p + r, 0 <= r < p. */
  lemma DivModUnique(x: int, p: int, q: int, r: int)
    requires p > 0 && 0 <= r < p && x == q * p + r
    ensures x / p == q && x % p == r
  {
    var q0, r0 := x / p, x % p;
    assert x == q0 * p + r0;
    var a := q - q0;
    assert a * p == q * p - q0 * p;
    if a >= 1 {
      MulAtLeast(a, p);
    } else if a <= -1 {
      MulAtLeast(-a, p);
    }
  }

  /** Moving back one unit from a time that is not a period boundary stays
      in the same period window. */
  lemma SameWindowAsPrevious(t: nat, p: int)
    requires p > 0 && t % p != 0
    ensures t >= 1 && WindowStart(t - 1, p) == WindowStart(t, p)
  {
    DivModUnique(t - 1, p, t / p, t % p - 1);
  }

  /** In every slot, once the releases are done, each task's deadline is
      the end of the period window that contains the slot. */
  lemma {:induction false} DeadlineIsWindowEnd(ts: seq<Task>, d: Discipline, t: nat, i: nat)
    requires ValidPeriods(ts) && i < |ts|
    ensures Released(ts, d, t).deadline[i] == WindowStart(t, ts[i].period) + ts[i].period
  {
    var p := ts[i].period;
    if t % p != 0 {
      var u := t - 1;
      SameWindowAsPrevious(t, p);
      DeadlineIsWindowEnd(ts, d, u, i);
      DeadlineCarriedOver(ts, d, t, i);
    }
  }

  /** Off a period boundary, a task keeps the deadline of the previous slot. */
  lemma DeadlineCarriedOver(ts: seq<Task>, d: Discipline, t: nat, i: nat)
    requires ValidPeriods(ts) && i < |ts| && t % ts[i].period != 0
    ensures t >= 1 && Released(ts, d, t).deadline[i] == Released(ts, d, t - 1).deadline[i]
  {
    var u := t - 1;
    SlotOutcome(ts, d, u);
    assert u + 1 == t;
  }

  /** Every budget lies between 0 and its task's execution time. */
  predicate BudgetsWithinExec(ts: seq<Task>, budget: seq<int>)
    requires |budget| == |ts|
  {
    forall i :: 0 <= i < |ts| ==> 0 <= budget[i] <= ts[i].exec
  }

  /** With non-negative execution times, every budget stays between 0 and
      the task's execution time, before and after each slot's releases. */
  lemma {:induction false} BudgetWithinExec(ts: seq<Task>, d: Discipline, h: nat)
    requires ValidPeriods(ts) && NonNegativeExec(ts)
    ensures BudgetsWithinExec(ts, RunFor(ts, d, h).state.budget)
    ensures BudgetsWithinExec(ts, Released(ts, d, h).budget)
  {
    if h > 0 {
      var t := h - 1;
      BudgetWithinExec(ts, d, t);
      DispatchKeepsBudgetWithinExec(ts, d, t);
      assert t + 1 == h;
    }
    ReleaseKeepsBudgetWithinExec(ts, d, h);
  }

  lemma ReleaseKeepsBudgetWithinExec(ts: seq<Task>, d: Discipline, h: nat)
    requires ValidPeriods(ts) && NonNegativeExec(ts)
    requires BudgetsWithinExec(ts, RunFor(ts, d, h).state.budget)
    ensures BudgetsWithinExec(ts, Released(ts, d, h).budget)
  {
  }

  lemma DispatchKeepsBudgetWithinExec(ts: seq<Task>, d: Discipline, t: nat)
    requires ValidPeriods(ts) && NonNegativeExec(ts)
    requires BudgetsWithinExec(ts, Released(ts, d, t).budget)
    ensures BudgetsWithinExec(ts, RunFor(ts, d, t + 1).state.budget)
  {
    SlotOutcome(ts, d, t);
  }

  // ---------------------------------------------------------------------
  // Dispatches per period window

  lemma CountAppend(tr: seq<Event>, e: Event, i: nat, lo: int, hi: int)
    ensures CountIn(tr + [e], i, lo, hi) ==
            CountIn(tr, i, lo, hi) + (if e.task == i && lo <= e.start < hi then 1 else 0)
  {
    assert (tr + [e])[..|tr|] == tr;
  }

  lemma {:induction false} CountOutside(tr: seq<Event>, i: nat, lo: int, hi: int)
    requires forall k :: 0 <= k < |tr| ==> tr[k].start < lo || tr[k].start >= hi
    ensures CountIn(tr, i, lo, hi) == 0
  {
    if tr != [] {
      CountOutside(tr[..|tr| - 1], i, lo, hi);
    }
  }

  lemma {:induction false} CountRaiseHi(tr: seq<Event>, i: nat, lo: int, hi: int, hi2: int)
    requires hi <= hi2
    requires forall k :: 0 <= k < |tr| ==> tr[k].start < hi
    ensures CountIn(tr, i, lo, hi) == CountIn(tr, i, lo, hi2)
  {
    if tr != [] {
      CountRaiseHi(tr[..|tr| - 1], i, lo, hi, hi2);
    }
  }

  lemma {:induction false} CountConcat(a: seq<Event>, b: seq<Event>, i: nat, lo: int, hi: int)
    ensures CountIn(a + b, i, lo, hi) == CountIn(a, i, lo, hi) + CountIn(b, i, lo, hi)
  {
    if b == [] {
      assert a + b == a;
    } else {
      var last := b[|b| - 1];
      CountConcat(a, b[..|b| - 1], i, lo, hi);
      assert a + b == (a + b[..|b| - 1]) + [last];
      CountAppend(a + b[..|b| - 1], last, i, lo, hi);
    }
  }

  /** Slot t takes from a task's budget exactly one unit per event of that
      task it records: budget plus count is unchanged by the dispatch. */
  lemma DispatchAccounting(ts: seq<Task>, d: Discipline, t: nat, i: nat, w: int)
    requires ValidPeriods(ts) && i < |ts| && w <= t
    ensures RunFor(ts, d, t + 1).state.budget[i] + CountIn(Trace(ts, d, t + 1), i, w, t + 1) ==
            Released(ts, d, t).budget[i] + CountIn(Trace(ts, d, t), i, w, t)
  {
    var prev := Trace(ts, d, t);
    SlotOutcome(ts, d, t);
    TraceWellOrdered(ts, d, t);
    CountRaiseHi(prev, i, w, t, t + 1);
    if !Idle(Released(ts, d, t).budget) {
      var j := Trace(ts, d, t + 1)[|prev|].task;
      assert Trace(ts, d, t + 1) == prev + [Event(t, 1, j)];
      CountAppend(prev, Event(t, 1, j), i, w, t + 1);
    }
  }

  /** After slot h - 1, a task's budget is its execution time less the
      number of times it ran since the start of its current period window. */
  lemma {:induction false} BudgetAccounting(ts: seq<Task>, d: Discipline, h: nat, i: nat)
    requires ValidPeriods(ts) && i < |ts| && h >= 1
    ensures RunFor(ts, d, h).state.budget[i] ==
            ts[i].exec - CountIn(Trace(ts, d, h), i, WindowStart(h - 1, ts[i].period), h)
  {
    var t, p := h - 1, ts[i].period;
    var w := WindowStart(t, p);
    DispatchAccounting(ts, d, t, i, w);
    assert t + 1 == h;
    if t % p == 0 {
      CountOutside(Trace(ts, d, t), i, w, t);
    } else {
      SameWindowAsPrevious(t, p);
      BudgetAccounting(ts, d, t, i);
    }
  }

  /** A slot t of the window [k * p, k * p + p) has that window's start. */
  lemma WindowStartIn(t: nat, p: int, k: int)
    requires p > 0 && k * p <= t < k * p + p
    ensures WindowStart(t, p) == k * p
  {
    DivModUnique(t, p, k, t - k * p);
  }

  /** Counting in [lo, hi) over a horizon h gives the count over the
      shorter horizon h0 when h0 is h itself or the window's end. */
  lemma WindowCountSettled(ts: seq<Task>, d: Discipline, h: nat, h0: nat, i: nat, lo: int, hi: int)
    requires ValidPeriods(ts) && h0 <= h && h0 <= hi && (h0 == h || h0 == hi)
    ensures CountIn(Trace(ts, d, h), i, lo, hi) == CountIn(Trace(ts, d, h0), i, lo, h0)
  {
    var tr, tr0 := Trace(ts, d, h), Trace(ts, d, h0);
    TracePrefix(ts, d, h0, h);
    TraceWellOrdered(ts, d, h0);
    assert tr == tr0 + tr[|tr0|..];
    CountConcat(tr0, tr[|tr0|..], i, lo, hi);
    CountOutside(tr[|tr0|..], i, lo, hi);
    CountRaiseHi(tr0, i, lo, h0, hi);
  }

  /** With non-negative execution times, task i runs at most exec_i times in
      each window [k * period_i, (k + 1) * period_i), whatever the horizon. */
  lemma AtMostExecPerWindow(ts: seq<Task>, d: Discipline, h: nat, i: nat, k: nat)
    requires ValidPeriods(ts) && NonNegativeExec(ts) && i < |ts|
    ensures CountIn(Trace(ts, d, h), i, k * ts[i].period, k * ts[i].period + ts[i].period) <= ts[i].exec
  {
    var p := ts[i].period;
    var lo, hi := k * p, k * p + p;
    if h <= lo {
      TraceWellOrdered(ts, d, h);
      CountOutside(Trace(ts, d, h), i, lo, hi);
    } else {
      var h0: nat := if h < hi then h else hi;
      WindowCountSettled(ts, d, h, h0, i, lo, hi);
      WindowStartIn(h0 - 1, p, k);
      RunsSinceWindowStart(ts, d, h0, i);
    }
  }

  /** After any slot, a task has run at most exec times since the start of
      the current window of its period. */
  lemma RunsSinceWindowStart(ts: seq<Task>, d: Discipline, h: nat, i: nat)
    requires ValidPeriods(ts) && NonNegativeExec(ts) && i < |ts| && h >= 1
    ensures CountIn(Trace(ts, d, h), i, WindowStart(h - 1, ts[i].period), h) <= ts[i].exec
  {
    BudgetAccounting(ts, d, h, i);
    BudgetWithinExec(ts, d, h);
    assert 0 <= RunFor(ts, d, h).state.budget[i];
  }
}

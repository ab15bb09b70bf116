// The utilization-based schedulability tests: the exact EDF test
// (utilization at most 1) and the sufficient Rate Monotonic test of
// Liu and Layland (utilization at most n * (2^(1/n) - 1)).
// Utilization is computed exactly, as a rational sum.
module Analysis {
  import opened Tasks

  /** The verdict of a test together with the utilization it compared. */
  datatype Verdict = Verdict(feasible: bool, utilization: real)

  /** Share of the processor one task demands. */
  function TaskUtilization(t: Task): (u: real)
    requires t.period > 0
  {
    t.exec as real / t.period as real
  }

  /** Total utilization: the sum of exec/period over the task list. */
  function Utilization(ts: seq<Task>): (u: real)
    requires ValidPeriods(ts)
  {
    if ts == [] then 0.0 else TaskUtilization(ts[0]) + Utilization(ts[1..])
  }

  /** EDF test: feasible exactly when the utilization is at most 1. */
  function EdfTest(ts: seq<Task>): (r: Verdict)
    requires ValidPeriods(ts)
    ensures r.utilization == Utilization(ts)
    ensures r.feasible <==> r.utilization <= 1.0
  {
    var u := Utilization(ts);
    Verdict(u <= 1.0, u)
  }

  /** x raised to the natural power n. */
  function Pow(x: real, n: nat): (r: real)
  {
    if n == 0 then 1.0 else x * Pow(x, n - 1)
  }

  /** `b` is the Liu and Layland bound n * (2^(1/n) - 1) for n tasks:
      1 + b/n is the positive n-th root of 2. There is no bound for n = 0,
      where the source divides by zero. */
  ghost predicate IsLiuLaylandBound(n: nat, b: real)
  {
    n > 0 && 1.0 + b / n as real > 0.0 && Pow(1.0 + b / n as real, n) == 2.0
  }

  /** RM test: feasible when the utilization is at most the Liu and Layland
      bound for the number of tasks, which the caller supplies. */
  function RmTest(ts: seq<Task>, bound: real): (r: Verdict)
    requires ValidPeriods(ts)
    requires IsLiuLaylandBound(|ts|, bound)
    ensures r.utilization == Utilization(ts)
    ensures r.feasible <==> r.utilization <= bound
  {
    var u := Utilization(ts);
    Verdict(u <= bound, u)
  }

  // ---------------------------------------------------------------------
  // Utilization

  lemma {:induction false} UtilizationNonNegative(ts: seq<Task>)
    requires ValidPeriods(ts) && NonNegativeExec(ts)
    ensures Utilization(ts) >= 0.0
  {
    if ts != [] {
      UtilizationNonNegative(ts[1..]);
    }
  }

  /** Replacing one task changes the sum by exactly the difference of the
      two tasks' shares. */
  lemma {:induction false} UtilizationReplace(ts: seq<Task>, i: nat, t: Task)
    requires ValidPeriods(ts) && i < |ts| && t.period > 0
    ensures ValidPeriods(ts[i := t])
    ensures Utilization(ts[i := t]) == Utilization(ts) - TaskUtilization(ts[i]) + TaskUtilization(t)
  {
    if i > 0 {
      assert ts[i := t][1..] == ts[1..][i - 1 := t];
      UtilizationReplace(ts[1..], i - 1, t);
    } else {
      assert ts[i := t][1..] == ts[1..];
    }
  }

  /** Raising one task's execution time never lowers the utilization. */
  lemma UtilizationMonotoneInExec(ts: seq<Task>, i: nat, exec: int)
    requires ValidPeriods(ts) && i < |ts| && exec >= ts[i].exec
    ensures ValidPeriods(ts[i := Task(exec, ts[i].period)])
    ensures Utilization(ts[i := Task(exec, ts[i].period)]) >= Utilization(ts)
  {
    UtilizationReplace(ts, i, Task(exec, ts[i].period));
    ShareMonotone(ts[i].exec as real, exec as real, ts[i].period as real);
  }

  /** a/p <= b/p for a <= b and p > 0. */
  lemma ShareMonotone(a: real, b: real, p: real)
    requires a <= b && p > 0.0
    ensures a / p <= b / p
  {
    var x, y := a / p, b / p;
    assert x * p == a && y * p == b;
    assert (y - x) * p == b - a;
  }

  /** Shortening one task's period never lowers the utilization, when its
      execution time is non-negative. */
  lemma UtilizationMonotoneInPeriod(ts: seq<Task>, i: nat, period: int)
    requires ValidPeriods(ts) && i < |ts| && ts[i].exec >= 0
    requires 0 < period <= ts[i].period
    ensures ValidPeriods(ts[i := Task(ts[i].exec, period)])
    ensures Utilization(ts[i := Task(ts[i].exec, period)]) >= Utilization(ts)
  {
    UtilizationReplace(ts, i, Task(ts[i].exec, period));
    ShareAntitone(ts[i].exec as real, period as real, ts[i].period as real);
  }

  /** e/q >= e/p for e >= 0 and 0 < q <= p. */
  lemma ShareAntitone(e: real, q: real, p: real)
    requires e >= 0.0 && 0.0 < q <= p
    ensures e / q >= e / p
  {
    var a, c := e / q, e / p;
    assert a * q == e && c * p == e;
    assert c >= 0.0;
  }

  /** The sum over a concatenation is the sum of the sums. */
  lemma {:induction false} UtilizationAppend(a: seq<Task>, b: seq<Task>)
    requires ValidPeriods(a) && ValidPeriods(b)
    ensures ValidPeriods(a + b)
    ensures Utilization(a + b) == Utilization(a) + Utilization(b)
  {
    if a == [] {
      assert a + b == b;
    } else {
      assert (a + b)[1..] == a[1..] + b;
      UtilizationAppend(a[1..], b);
    }
  }

  /** The order of the task list does not matter to the analysis: any
      reordering of the same tasks has the same utilization. */
  lemma {:induction false} UtilizationOrderIndependent(a: seq<Task>, b: seq<Task>)
    requires ValidPeriods(a) && ValidPeriods(b) && multiset(a) == multiset(b)
    ensures Utilization(a) == Utilization(b)
    decreases |a|
  {
    if a == [] {
      assert |b| == |multiset(b)|;
    } else {
      assert a[0] in multiset(b);
      var k :| 0 <= k < |b| && b[k] == a[0];
      MultisetWithout(a, b, k);
      UtilizationWithout(b, k);
      UtilizationOrderIndependent(a[1..], b[..k] + b[k + 1..]);
    }
  }

  /** Taking the first task of a off a and one equal task off b keeps the
      two multisets equal. */
  lemma MultisetWithout(a: seq<Task>, b: seq<Task>, k: nat)
    requires a != [] && k < |b| && b[k] == a[0] && multiset(a) == multiset(b)
    ensures multiset(a[1..]) == multiset(b[..k] + b[k + 1..])
  {
    var x := a[0];
    assert a == [x] + a[1..];
    assert b == b[..k] + [x] + b[k + 1..];
    var pre, post := b[..k], b[k + 1..];
    var left, right := multiset(a[1..]), multiset(pre) + multiset(post);
    assert multiset(a) == multiset{x} + left;
    assert multiset(b) == multiset{x} + right;
    assert left == (multiset{x} + left) - multiset{x};
    assert right == (multiset{x} + right) - multiset{x};
    assert multiset(pre + post) == right;
  }

  /** The sum is the share of the k-th task plus the sum without it. */
  lemma UtilizationWithout(b: seq<Task>, k: nat)
    requires ValidPeriods(b) && k < |b|
    ensures ValidPeriods(b[..k] + b[k + 1..])
    ensures Utilization(b) == TaskUtilization(b[k]) + Utilization(b[..k] + b[k + 1..])
  {
    var pre, rest, post := b[..k], b[k..], b[k + 1..];
    assert b == pre + rest;
    assert rest[1..] == post;
    assert Utilization(rest) == TaskUtilization(b[k]) + Utilization(post);
    UtilizationAppend(pre, rest);
    UtilizationAppend(pre, post);
  }

  /** If the EDF test accepts a task set, it accepts it with any one
      execution time lowered. */
  lemma EdfFeasibleClosedUnderLessWork(ts: seq<Task>, i: nat, exec: int)
    requires ValidPeriods(ts) && i < |ts| && exec <= ts[i].exec
    requires EdfTest(ts).feasible
    ensures ValidPeriods(ts[i := Task(exec, ts[i].period)])
    ensures EdfTest(ts[i := Task(exec, ts[i].period)]).feasible
  {
    var lower := ts[i := Task(exec, ts[i].period)];
    UtilizationMonotoneInExec(lower, i, ts[i].exec);
    assert lower[i := Task(ts[i].exec, ts[i].period)] == ts;
  }

  // ---------------------------------------------------------------------
  // The Liu and Layland bound

  lemma {:induction false} PowOne(n: nat)
    ensures Pow(1.0, n) == 1.0
  {
    if n > 0 {
      PowOne(n - 1);
    }
  }

  lemma {:induction false} PowNonNegative(x: real, n: nat)
    requires x >= 0.0
    ensures Pow(x, n) >= 0.0
  {
    if n > 0 {
      PowNonNegative(x, n - 1);
    }
  }

  lemma {:induction false} PowMonotone(y: real, x: real, n: nat)
    requires 0.0 <= y <= x
    ensures Pow(y, n) <= Pow(x, n)
  {
    if n > 0 {
      PowMonotone(y, x, n - 1);
      PowNonNegative(y, n - 1);
      assert y * Pow(y, n - 1) <= x * Pow(y, n - 1);
      assert x * Pow(y, n - 1) <= x * Pow(x, n - 1);
    }
  }

  lemma {:induction false} PowStrictlyMonotone(y: real, x: real, n: nat)
    requires 0.0 <= y < x && n > 0
    ensures Pow(y, n) < Pow(x, n)
  {
    if n == 1 {
    } else {
      PowStrictlyMonotone(y, x, n - 1);
      PowNonNegative(y, n - 1);
      assert y * Pow(y, n - 1) <= x * Pow(y, n - 1);
      assert x * Pow(y, n - 1) < x * Pow(x, n - 1);
    }
  }

  /** Bernoulli's inequality: (1 + y)^n >= 1 + n*y for y >= -1. */
  lemma {:induction false} Bernoulli(y: real, n: nat)
    requires y >= -1.0
    ensures Pow(1.0 + y, n) >= 1.0 + n as real * y
  {
    if n > 0 {
      Bernoulli(y, n - 1);
      var m := (n - 1) as real;
      var p := Pow(1.0 + y, n - 1);
      assert Pow(1.0 + y, n) == (1.0 + y) * p;
      ScaleLeft(1.0 + y, p, 1.0 + m * y);
      assert (1.0 + y) * (1.0 + m * y) == 1.0 + (m + 1.0) * y + m * (y * y);
      assert m * (y * y) >= 0.0;
      assert n as real == m + 1.0;
    }
  }

  lemma ScaleLeft(a: real, b: real, c: real)
    requires a >= 0.0 && b >= c
    ensures a * b >= a * c
  {
  }

  /** The bound is a proper fraction of the processor: 0 < b <= 1. */
  lemma LiuLaylandBoundRange(n: nat, b: real)
    requires IsLiuLaylandBound(n, b)
    ensures 0.0 < b <= 1.0
  {
    var y := b / n as real;
    if y <= 0.0 {
      PowMonotone(1.0 + y, 1.0, n);
      PowOne(n);
      assert false;
    }
    Bernoulli(y, n);
    assert n as real * y == b;
  }

  /** At most one bound exists for each n. */
  lemma LiuLaylandBoundUnique(n: nat, b1: real, b2: real)
    requires IsLiuLaylandBound(n, b1) && IsLiuLaylandBound(n, b2)
    ensures b1 == b2
  {
    var x1, x2 := 1.0 + b1 / n as real, 1.0 + b2 / n as real;
    if x1 < x2 {
      PowStrictlyMonotone(x1, x2, n);
    } else if x2 < x1 {
      PowStrictlyMonotone(x2, x1, n);
    }
    assert x1 == x2;
    assert b1 == (x1 - 1.0) * n as real;
  }

  /** For a single task the bound is the whole processor. */
  lemma LiuLaylandBoundForOneTask(b: real)
    ensures IsLiuLaylandBound(1, b) <==> b == 1.0
  {
    assert Pow(1.0 + b / 1.0, 1) == (1.0 + b) * Pow(1.0 + b, 0);
  }

  /** Whatever the RM test accepts, the EDF test accepts too. */
  lemma RmFeasibleImpliesEdfFeasible(ts: seq<Task>, bound: real)
    requires ValidPeriods(ts) && IsLiuLaylandBound(|ts|, bound)
    requires RmTest(ts, bound).feasible
    ensures EdfTest(ts).feasible
  {
    LiuLaylandBoundRange(|ts|, bound);
  }

  // ---------------------------------------------------------------------
  // The predefined task sets of the program, as test vectors.

  const RM_FEASIBLE_SET: seq<Task> := [Task(1, 8), Task(2, 12), Task(3, 24)]
  const RM_INFEASIBLE_SET: seq<Task> := [Task(3, 8), Task(4, 12), Task(5, 24)]
  const EDF_FEASIBLE_SET: seq<Task> := [Task(3, 6), Task(2, 8), Task(3, 12)]
  const EDF_INFEASIBLE_SET: seq<Task> := [Task(4, 6), Task(3, 8), Task(4, 12)]

  /** Utilization 5/12 lies below the three-task bound (about 0.780). */
  lemma RmFeasibleSetPasses(b: real)
    requires IsLiuLaylandBound(3, b)
    ensures Utilization(RM_FEASIBLE_SET) == 5.0 / 12.0
    ensures RmTest(RM_FEASIBLE_SET, b).feasible
  {
    var x := 1.0 + b / 3.0;
    if x < 41.0 / 36.0 {
      PowMonotone(x, 41.0 / 36.0, 3);
      assert false;
    }
  }

  /** Utilization 11/12 lies above the three-task bound, although the EDF
      test accepts the same set. */
  lemma RmInfeasibleSetFails(b: real)
    requires IsLiuLaylandBound(3, b)
    ensures Utilization(RM_INFEASIBLE_SET) == 11.0 / 12.0
    ensures !RmTest(RM_INFEASIBLE_SET, b).feasible
    ensures EdfTest(RM_INFEASIBLE_SET).feasible
  {
    var x := 1.0 + b / 3.0;
    if x >= 47.0 / 36.0 {
      PowMonotone(47.0 / 36.0, x, 3);
      assert false;
    }
  }

  /** Utilization exactly 1: accepted, the EDF bound is inclusive. */
  lemma EdfFeasibleSetPasses()
    ensures Utilization(EDF_FEASIBLE_SET) == 1.0
    ensures EdfTest(EDF_FEASIBLE_SET).feasible
  {
  }

  /** Utilization 11/8: rejected. */
  lemma EdfInfeasibleSetFails()
    ensures Utilization(EDF_INFEASIBLE_SET) == 11.0 / 8.0
    ensures !EdfTest(EDF_INFEASIBLE_SET).feasible
  {
  }
}

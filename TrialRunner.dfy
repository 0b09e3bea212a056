/**
 * The trial runner of updated.rs (`time_operation`): call a fallible
 * operation `trials` times in sequence, record one duration per call,
 * keep only the last result and report the sum of the durations divided
 * by `trials as u32`.
 *
 * The operation and the wall clock are inputs: `operation(k)` is the
 * outcome of the k-th call (counting from 0) and `elapsed(k)` the number
 * of nanoseconds `start.elapsed()` measures around it.
 */
module TrialRunner {
  import opened Wrappers

  /** `trials as u32` keeps the low 32 bits of the usize trial count. */
  const U32_LIMIT: nat := 0x1_0000_0000

  /** The pair `(T, Duration)` that a successful run returns; the duration in nanoseconds. */
  datatype Timed<T> = Timed(value: T, averageNs: nat)

  /** Ways a call of time_operation panics instead of returning. */
  datatype TrialError<E> =
    | OperationFailed(call: nat, cause: E)  // `expect("Operation failed")` on the `call`-th invocation
    | DivideByZero                          // `Duration / 0` when `trials as u32` is 0

  /** Total of the recorded durations: `durations.iter().sum::<Duration>()`. */
  function Sum(ds: seq<nat>): (total: nat)
  {
    if ds == [] then 0 else Sum(ds[..|ds| - 1]) + ds[|ds| - 1]
  }

  /** The smallest recorded duration. */
  function Min(ds: seq<nat>): (m: nat)
    requires ds != []
  {
    if |ds| == 1 then ds[0] else
      var m := Min(ds[..|ds| - 1]);
      if ds[|ds| - 1] < m then ds[|ds| - 1] else m
  }

  /** The largest recorded duration. */
  function Max(ds: seq<nat>): (m: nat)
    requires ds != []
  {
    if |ds| == 1 then ds[0] else
      var m := Max(ds[..|ds| - 1]);
      if ds[|ds| - 1] > m then ds[|ds| - 1] else m
  }

  /** The average as the source computes it: divided by the trial count truncated to 32 bits. */
  function AverageAsWritten(ds: seq<nat>, trials: nat): (avg: Option<nat>)
    ensures avg.None? <==> trials % U32_LIMIT == 0
    ensures avg.Some? ==> avg.value * (trials % U32_LIMIT) <= Sum(ds) < (avg.value + 1) * (trials % U32_LIMIT)
  {
    var divisor := trials % U32_LIMIT;
    if divisor == 0 then None else Some(Sum(ds) / divisor)
  }

  /** The intended average: the floor of the mean duration. */
  function FloorMean(ds: seq<nat>): (avg: nat)
    requires ds != []
    ensures avg * |ds| <= Sum(ds) < (avg + 1) * |ds|
  {
    Sum(ds) / |ds|
  }

  lemma MulMonotone(n: nat, a: nat, b: nat)
    requires a <= b
    ensures n * a <= n * b
  {
    assert n * b == n * a + n * (b - a);
  }

  /** The arithmetic of one induction step of SumAtLeast. */
  lemma SumStepAtLeast(total: nat, last: nat, n: nat, m: nat, lo: nat)
    requires n * m <= total && lo <= m && lo <= last
    ensures (n + 1) * lo <= total + last
  {
    MulMonotone(n, lo, m);
    assert (n + 1) * lo == n * lo + lo;
  }

  /** The arithmetic of one induction step of SumAtMost. */
  lemma SumStepAtMost(total: nat, last: nat, n: nat, m: nat, hi: nat)
    requires total <= n * m && m <= hi && last <= hi
    ensures total + last <= (n + 1) * hi
  {
    MulMonotone(n, m, hi);
    assert (n + 1) * hi == n * hi + hi;
  }

  lemma {:induction false} SumAtLeast(ds: seq<nat>)
    requires ds != []
    ensures |ds| * Min(ds) <= Sum(ds)
  {
    if |ds| > 1 {
      var init, last := ds[..|ds| - 1], ds[|ds| - 1];
      SumAtLeast(init);
      assert Sum(ds) == Sum(init) + last;
      SumStepAtLeast(Sum(init), last, |init|, Min(init), Min(ds));
    }
  }

  lemma {:induction false} SumAtMost(ds: seq<nat>)
    requires ds != []
    ensures Sum(ds) <= |ds| * Max(ds)
  {
    if |ds| > 1 {
      var init, last := ds[..|ds| - 1], ds[|ds| - 1];
      SumAtMost(init);
      assert Sum(ds) == Sum(init) + last;
      SumStepAtMost(Sum(init), last, |init|, Max(init), Max(ds));
    }
  }

  lemma QuotientBetween(total: nat, n: nat, avg: nat, lo: nat, hi: nat)
    requires n > 0 && avg * n <= total < (avg + 1) * n
    requires n * lo <= total <= n * hi
    ensures lo <= avg <= hi
  {
    if avg < lo {
      MulMonotone(n, avg + 1, lo);
    }
    if avg > hi {
      MulMonotone(n, hi + 1, avg);
    }
  }

  /** The floor mean lies between the smallest and the largest recorded duration. */
  lemma FloorMeanWithinRange(ds: seq<nat>)
    requires ds != []
    ensures Min(ds) <= FloorMean(ds) <= Max(ds)
  {
    SumAtLeast(ds);
    SumAtMost(ds);
    QuotientBetween(Sum(ds), |ds|, FloorMean(ds), Min(ds), Max(ds));
  }

  /** For every trial count that fits in u32 the source's average is the floor mean. */
  lemma AverageAsWrittenIsFloorMean(ds: seq<nat>)
    requires 1 <= |ds| < U32_LIMIT
    ensures AverageAsWritten(ds, |ds|) == Some(FloorMean(ds))
  {
  }

  lemma {:induction false} SumOfConstant(ds: seq<nat>, d: nat)
    requires forall i :: 0 <= i < |ds| ==> ds[i] == d
    ensures Sum(ds) == |ds| * d
  {
    if ds != [] {
      SumOfConstant(ds[..|ds| - 1], d);
    }
  }

  /**
   * With 2^32 + 1 trials of one nanosecond each, `trials as u32` is 1 and
   * the reported average is 2^32 + 1 nanoseconds, larger than every
   * recorded duration.
   */
  lemma WrappedDivisorCounterexample(ds: seq<nat>)
    requires |ds| == U32_LIMIT + 1
    requires forall i :: 0 <= i < |ds| ==> ds[i] == 1
    ensures AverageAsWritten(ds, |ds|) == Some(U32_LIMIT + 1)
    ensures forall i :: 0 <= i < |ds| ==> ds[i] < AverageAsWritten(ds, |ds|).value
  {
    SumOfConstant(ds, 1);
  }

  /**
   * time_operation. Returns the outcome, the number of times the operation
   * was invoked, and the durations recorded (one per successful call).
   */
  method TimeOperation<T, E>(operation: nat -> Result<T, E>, elapsed: nat -> nat, trials: nat)
    returns (r: Result<Timed<T>, TrialError<E>>, calls: nat, durations: seq<nat>)
    // calls are sequential and at most `trials`; each success records its own duration
    ensures calls <= trials && |durations| <= calls
    ensures forall i :: 0 <= i < |durations| ==> operation(i).Ok? && durations[i] == elapsed(i)
    // fail fast: the first failing call is the last call, and its error is surfaced
    ensures |durations| < trials ==>
      && calls == |durations| + 1
      && operation(|durations|).Err?
      && r == Err(OperationFailed(|durations|, operation(|durations|).error))
    // all calls succeeded: the result of the last call and the average as written
    ensures |durations| == trials ==>
      && calls == trials
      && r == if trials % U32_LIMIT == 0 then Err(DivideByZero)
              else Ok(Timed(operation(trials - 1).value, AverageAsWritten(durations, trials).value))
    ensures r.Ok? <==> trials % U32_LIMIT != 0 && forall i :: 0 <= i < trials ==> operation(i).Ok?
    // for trial counts that fit in u32 the average is the floor mean of all `trials` durations
    ensures r.Ok? && trials < U32_LIMIT ==> |durations| == trials >= 1 && r.value.averageNs == FloorMean(durations)
  {
    durations := [];
    calls := 0;
    var result: Option<T> := None;
    var i := 0;
    while i < trials
      invariant 0 <= i <= trials
      invariant calls == i && |durations| == i
      invariant forall j :: 0 <= j < i ==> operation(j).Ok? && durations[j] == elapsed(j)
      invariant result == if i == 0 then None else Some(operation(i - 1).value)
    {
      var outcome := operation(i);
      calls := calls + 1;
      if outcome.Err? {
        r := Err(OperationFailed(i, outcome.error));
        return;
      }
      durations := durations + [elapsed(i)];
      result := Some(outcome.value);
      i := i + 1;
    }
    var divisor := trials % U32_LIMIT;
    if divisor == 0 {
      r := Err(DivideByZero);
      return;
    }
    assert AverageAsWritten(durations, trials) == Some(Sum(durations) / divisor);
    if trials < U32_LIMIT {
      AverageAsWrittenIsFloorMean(durations);
    }
    r := Ok(Timed(result.value, Sum(durations) / divisor));
  }

  /**
   * An operation that always succeeds, returns its call index and takes
   * 10 ms, run for 3 trials: the value of the last call (2) and an average
   * of 10 ms.
   */
  method TenMillisecondsThreeTrials() returns (r: Result<Timed<int>, TrialError<string>>, calls: nat)
    ensures calls == 3 && r == Ok(Timed(2, 10_000_000))
  {
    var durations;
    r, calls, durations := TimeOperation<int, string>(k => Ok(k), k => 10_000_000, 3);
    SumOfConstant(durations, 10_000_000);
  }

  /** An operation that fails on its second call: the run stops after two calls. */
  method FailureOnSecondCall() returns (r: Result<Timed<int>, TrialError<string>>, calls: nat)
    ensures calls == 2 && r == Err(OperationFailed(1, "boom"))
  {
    var operation: nat -> Result<int, string> := k => if k == 1 then Err("boom") else Ok(7);
    var durations;
    r, calls, durations := TimeOperation(operation, k => 5, 3);
    assert operation(0).Ok? && operation(1).Err?;
    assert |durations| == 1;
  }

  /** With no trials the loop never runs and the division panics before anything is returned. */
  method ZeroTrials() returns (r: Result<Timed<int>, TrialError<string>>, calls: nat)
    ensures calls == 0 && r == Err(DivideByZero)
  {
    var durations;
    r, calls, durations := TimeOperation<int, string>(k => Ok(7), k => 5, 0);
  }
}

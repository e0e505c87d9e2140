/** The running average of teardown durations, kept in truncating 64-bit integer arithmetic
    (internal/teardown/metrics.go). */
module RunningAverage {

  import opened Common

  const MAX_INT64 := 0x7FFF_FFFF_FFFF_FFFF

  function Wrap64(x: int): int {
    (x + 0x8000_0000_0000_0000) % 0x1_0000_0000_0000_0000 - 0x8000_0000_0000_0000
  }

  /** Go's integer division, which truncates toward zero. */
  function Quotient(a: int, b: int): int
    requires b > 0
  {
    if a >= 0 then a / b else -(-a / b)
  }

  /** An int64 that differs from the exact value by a multiple of 2^64. */
  lemma WrapIsInt64(x: int)
    ensures -0x8000_0000_0000_0000 <= Wrap64(x) < 0x8000_0000_0000_0000
    ensures (x - Wrap64(x)) % 0x1_0000_0000_0000_0000 == 0
  {
    var q := (x + 0x8000_0000_0000_0000) / 0x1_0000_0000_0000_0000;
    assert x - Wrap64(x) == q * 0x1_0000_0000_0000_0000;
  }

  /** What is dropped is less than one divisor and has the sign of the dividend. */
  lemma QuotientTruncates(a: int, b: int)
    requires b > 0
    ensures var lost := a - Quotient(a, b) * b;
      (a >= 0 ==> 0 <= lost < b) && (a <= 0 ==> -b < lost <= 0)
  {
    if a >= 0 {
      assert a / b * b + a % b == a;
    } else {
      assert -a / b * b + -a % b == -a;
      assert Quotient(a, b) * b == -(-a / b * b);
    }
  }

  /** One update; `n` is the number of executions including the new one. */
  function Updated(average: int, n: nat, duration: int): int
    requires n > 0
  {
    Quotient(Wrap64(Wrap64(average * (n - 1)) + duration), n)
  }

  /** The average after recording each duration in turn. */
  function Average(ds: seq<int>): int {
    if ds == [] then 0 else Updated(Average(ds[..|ds| - 1]), |ds|, ds[|ds| - 1])
  }

  predicate NonNegative(ds: seq<int>) {
    forall d <- ds :: d >= 0
  }

  lemma Scale(a: int, b: int, n: nat)
    requires a <= b
    ensures a * n <= b * n
  {
  }

  lemma Cancel(n: int, x: int, y: int)
    requires n > 0 && n * x < n * y
    ensures x < y
  {
    assert n * (y - x) > 0;
  }

  /** One truncating division: the exact total is missed by less than the divisor. */
  lemma Truncation(t: int, n: int)
    requires n > 0
    ensures 0 <= t - n * (t / n) < n
  {
  }

  lemma Fits(x: int)
    requires 0 <= x <= MAX_INT64
    ensures Wrap64(x) == x
  {
  }

  lemma UpdatedFits(a: int, n: nat, d: int)
    requires n > 0 && a >= 0 && d >= 0 && a * (n - 1) + d <= MAX_INT64
    ensures a * (n - 1) >= 0 && Updated(a, n, d) == (a * (n - 1) + d) / n
  {
    Scale(0, a, n - 1);
    Fits(a * (n - 1));
    Fits(a * (n - 1) + d);
  }

  /** `s` is the sum and `a` the average of n - 1 durations; one more is recorded. */
  lemma OneMore(s: int, a: int, n: nat, d: int)
    requires n > 0 && a >= 0 && d >= 0
    requires 0 <= s - (n - 1) * a && 2 * (s - (n - 1) * a) <= (n - 1) * (n - 2)
    ensures var q := (a * (n - 1) + d) / n;
      0 <= q && 0 <= s + d - n * q && 2 * (s + d - n * q) <= n * (n - 1)
  {
    var t := a * (n - 1) + d;
    Scale(0, a, n - 1);
    Truncation(t, n);
    var lost := t - n * (t / n);
    assert s + d - n * (t / n) == (s - (n - 1) * a) + lost;
    assert n * (n - 1) == (n - 1) * (n - 2) + 2 * (n - 1);
  }

  /** While the sum of the durations fits in an int64, no intermediate value overflows: the product
      plus the new duration never exceeds the sum. The average lags the true sum by at most n(n-1)/2. */
  lemma {:induction false} AverageError(ds: seq<int>)
    requires NonNegative(ds) && Sum(ds) <= MAX_INT64
    ensures 0 <= Average(ds)
    ensures 0 <= Sum(ds) - |ds| * Average(ds)
    ensures 2 * (Sum(ds) - |ds| * Average(ds)) <= |ds| * (|ds| - 1)
    ensures ds != [] ==> NoOverflow(Average(ds[..|ds| - 1]), ds)
    ensures ds != [] ==> Average(ds) == (Average(ds[..|ds| - 1]) * (|ds| - 1) + ds[|ds| - 1]) / |ds|
  {
    if ds != [] {
      var n := |ds|;
      var front, d := ds[..n - 1], ds[n - 1];
      assert ds == front + [d];
      assert d in ds;
      assert forall x <- front :: x in ds;
      AverageError(front);
      RecordOne(ds, Average(front));
    }
  }

  /** The intermediate values of the update stay between zero and the sum. */
  predicate NoOverflow(a: int, ds: seq<int>)
    requires ds != []
  {
    0 <= a * (|ds| - 1) <= a * (|ds| - 1) + ds[|ds| - 1] <= Sum(ds)
  }

  lemma RecordOne(ds: seq<int>, a: int)
    requires ds != [] && ds[|ds| - 1] >= 0 && Sum(ds) <= MAX_INT64
    requires a == Average(ds[..|ds| - 1]) && a >= 0
    requires var s := Sum(ds[..|ds| - 1]);
      0 <= s - (|ds| - 1) * a && 2 * (s - (|ds| - 1) * a) <= (|ds| - 1) * (|ds| - 2)
    ensures NoOverflow(a, ds) && Average(ds) == (a * (|ds| - 1) + ds[|ds| - 1]) / |ds|
    ensures 0 <= Average(ds) && 0 <= Sum(ds) - |ds| * Average(ds)
    ensures 2 * (Sum(ds) - |ds| * Average(ds)) <= |ds| * (|ds| - 1)
  {
    var n, d := |ds|, ds[|ds| - 1];
    Scale(0, a, n - 1);
    UpdatedFits(a, n, d);
    OneMore(Sum(ds[..n - 1]), a, n, d);
  }

  ghost predicate Between(ds: seq<int>, low: int, high: int) {
    forall d <- ds :: low <= d <= high
  }

  lemma DivideBetween(t: int, n: int, low: int, high: int)
    requires n > 0 && low * n <= t <= high * n
    ensures low <= t / n <= high
  {
    Truncation(t, n);
    Cancel(n, low, t / n + 1);
    Cancel(n, t / n, high + 1);
  }

  lemma CombinedBetween(a: int, n: nat, d: int, low: int, high: int)
    requires n > 0 && low <= d <= high && (n > 1 ==> low <= a <= high)
    ensures low <= (a * (n - 1) + d) / n <= high
  {
    if n > 1 {
      Scale(low, a, n - 1);
      Scale(a, high, n - 1);
    }
    assert low * n == low * (n - 1) + low && high * n == high * (n - 1) + high;
    DivideBetween(a * (n - 1) + d, n, low, high);
  }

  /** The average lies between any bounds on the durations, so between their minimum and maximum. */
  lemma {:induction false} AverageIsBetween(ds: seq<int>, low: int, high: int)
    requires ds != [] && NonNegative(ds) && Sum(ds) <= MAX_INT64 && Between(ds, low, high)
    ensures low <= Average(ds) <= high
  {
    var n := |ds|;
    var front, d := ds[..n - 1], ds[n - 1];
    assert ds == front + [d];
    assert d in ds;
    assert forall x <- front :: x in ds;
    AverageError(ds);
    if front != [] {
      AverageIsBetween(front, low, high);
    }
    CombinedBetween(Average(front), n, d, low, high);
  }

  /** The durations 0, 1, ..., n-1. */
  function Ramp(n: nat): seq<int> {
    seq(n, i => i)
  }

  lemma StaysZero(n: nat)
    requires 0 < n <= MAX_INT64
    ensures Updated(0, n, n - 1) == 0
  {
    Fits(n - 1);
  }

  lemma {:induction false} SumOfRamp(n: nat)
    ensures 2 * Sum(Ramp(n)) == n * (n - 1)
  {
    if n > 0 {
      SumOfRamp(n - 1);
      assert Ramp(n)[..n - 1] == Ramp(n - 1);
      assert n * (n - 1) == (n - 1) * (n - 2) + 2 * (n - 1);
    }
  }

  lemma {:induction false} AverageOfRamp(n: nat)
    requires n <= MAX_INT64
    ensures Average(Ramp(n)) == 0
  {
    if n > 0 {
      AverageOfRamp(n - 1);
      assert Ramp(n)[..n - 1] == Ramp(n - 1);
      StaysZero(n);
    }
  }

  /** The error bound is attained for every n: over 0, 1, ..., n-1 the average stays at 0. */
  lemma BoundIsAttained(n: nat)
    requires n <= MAX_INT64
    ensures NonNegative(Ramp(n)) && |Ramp(n)| == n
    ensures 2 * (Sum(Ramp(n)) - n * Average(Ramp(n))) == n * (n - 1)
  {
    SumOfRamp(n);
    AverageOfRamp(n);
    assert n * 0 == 0;
  }

  class TeardownMetrics {
    var successCount: nat
    var failureCount: nat
    var averageExecutionTime: int

    ghost var recorded: seq<int>

    ghost predicate Valid()
      reads this
    {
      successCount + failureCount == |recorded| && averageExecutionTime == Average(recorded)
    }

    constructor ()
      ensures Valid() && recorded == []
    {
      successCount, failureCount, averageExecutionTime := 0, 0, 0;
      recorded := [];
    }

    /** An execution without an end time is not counted. */
    method RecordExecutionSuccess(duration: Option<int>)
      requires Valid()
      modifies this
      ensures Valid() && failureCount == old(failureCount)
      ensures duration.None? ==> successCount == old(successCount) && recorded == old(recorded)
      ensures duration.Some? ==> successCount == old(successCount) + 1 && recorded == old(recorded) + [duration.value]
    {
      if duration.Some? {
        successCount := successCount + 1;
        UpdateAverageExecutionTime(duration.value);
        recorded := recorded + [duration.value];
        assert recorded[..|recorded| - 1] == old(recorded);
      }
    }

    method RecordExecutionFailure(duration: int)
      requires Valid()
      modifies this
      ensures Valid() && successCount == old(successCount) && failureCount == old(failureCount) + 1
      ensures recorded == old(recorded) + [duration]
    {
      failureCount := failureCount + 1;
      UpdateAverageExecutionTime(duration);
      recorded := recorded + [duration];
      assert recorded[..|recorded| - 1] == old(recorded);
    }

    /** Called after the count has been increased. */
    method UpdateAverageExecutionTime(newDuration: int)
      modifies `averageExecutionTime
      ensures successCount + failureCount == 0 ==> averageExecutionTime == newDuration
      ensures successCount + failureCount > 0 ==>
        averageExecutionTime == Updated(old(averageExecutionTime), successCount + failureCount, newDuration)
    {
      var totalExecutions := successCount + failureCount;
      if totalExecutions == 0 {
        averageExecutionTime := newDuration;
        return;
      }
      var currentAvg := averageExecutionTime;
      averageExecutionTime := Quotient(Wrap64(Wrap64(currentAvg * (totalExecutions - 1)) + newDuration), totalExecutions);
    }
  }
}

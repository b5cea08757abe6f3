/** The benchmark accumulator of `app/metrics.py`: latency samples of
    successful operations, a count of failed ones, and the instant the
    measurement window opened. Every operation is a pure function from the
    old state to the new one; the wall clock is the `now` parameter and the
    square root used by the standard deviation is the `sqrt` parameter. */
module Metrics {
  import opened Stats

  datatype Benchmark = Benchmark(latencies: seq<real>, errors: nat, startTime: real)

  /** The dictionary `summary()` returns. It has no sample count. */
  datatype Summary = Summary(
    averageLatency: real,
    stddevLatency: real,
    minLatency: real,
    maxLatency: real,
    throughput: real,
    errorRate: real)

  /** `Benchmark()`: no samples, no errors, window opened at `now`. */
  function New(now: real): (b: Benchmark)
    ensures b.latencies == [] && b.errors == 0 && b.startTime == now
  {
    Benchmark([], 0, now)
  }

  /** `record_latency(x)`: `x` becomes the last sample; nothing else moves. */
  function RecordLatency(b: Benchmark, latency: real): (b': Benchmark)
    ensures |b'.latencies| == |b.latencies| + 1
    ensures b'.latencies[..|b.latencies|] == b.latencies
    ensures b'.latencies[|b.latencies|] == latency
    ensures b'.errors == b.errors && b'.startTime == b.startTime
  {
    b.(latencies := b.latencies + [latency])
  }

  /** `record_error()`: one more error; samples and start time untouched. */
  function RecordError(b: Benchmark): (b': Benchmark)
    ensures b'.errors == b.errors + 1
    ensures b'.latencies == b.latencies && b'.startTime == b.startTime
  {
    b.(errors := b.errors + 1)
  }

  /** The module-level `reset(self)`: the source defines it outside the class
      body, so it is a free function taking the accumulator, not a method.
      It empties the samples, zeroes the errors and reopens the window. */
  function Reset(b: Benchmark, now: real): (b': Benchmark)
    ensures b' == New(now)
  {
    b.(latencies := [], errors := 0, startTime := now)
  }

  /** `count / total_time if total_time > 0 else 0`: successful samples per
      second of the measurement window. */
  function Throughput(count: nat, elapsed: real): (t: real)
    ensures elapsed <= 0.0 ==> t == 0.0
    ensures elapsed > 0.0 ==> 0.0 <= t && t * elapsed == count as real
    ensures count == 0 ==> t == 0.0
  {
    if elapsed > 0.0 then
      DivideBounds(count as real, elapsed, 0.0, count as real / elapsed);
      count as real / elapsed
    else 0.0
  }

  /** `(errors / (count + errors)) * 100 if (count + errors) else 0`: the
      failed share of all attempts as a percentage, so it lies in [0, 100],
      is 0 without errors and 100 without successful samples. */
  function ErrorRate(count: nat, errors: nat): (r: real)
    ensures 0.0 <= r <= 100.0
    ensures count + errors > 0 ==> r * (count + errors) as real == 100.0 * errors as real
    ensures count + errors == 0 ==> r == 0.0
    ensures errors == 0 ==> r == 0.0
    ensures count == 0 && errors > 0 ==> r == 100.0
  {
    if count + errors > 0 then
      var total := (count + errors) as real;
      DivideBounds(errors as real, total, 0.0, 1.0);
      assert count == 0 ==> errors as real / total == 1.0;
      (errors as real / total) * 100.0
    else 0.0
  }

  /** `statistics.mean(self.latencies) if self.latencies else 0`. */
  function AverageLatency(xs: seq<real>): (a: real)
    ensures |xs| == 0 ==> a == 0.0
    ensures |xs| > 0 ==> a == Mean(xs) && Min(xs) <= a <= Max(xs)
  {
    if |xs| > 0 then
      MeanBounds(xs);
      Mean(xs)
    else 0.0
  }

  /** `statistics.stdev(self.latencies) if len(self.latencies) > 1 else 0`. */
  function StddevLatency(xs: seq<real>, sqrt: real -> real): (d: real)
    requires IsSqrt(sqrt)
    ensures 0.0 <= d
    ensures |xs| <= 1 ==> d == 0.0
  {
    if |xs| > 1 then
      StdDevNonNegative(xs, sqrt);
      StdDev(xs, sqrt)
    else 0.0
  }

  /** `min(self.latencies) if self.latencies else 0`. */
  function MinLatency(xs: seq<real>): (m: real)
    ensures |xs| == 0 ==> m == 0.0
    ensures |xs| > 0 ==> m in xs
    ensures forall i :: 0 <= i < |xs| ==> m <= xs[i]
  {
    if |xs| > 0 then Min(xs) else 0.0
  }

  /** `max(self.latencies) if self.latencies else 0`. */
  function MaxLatency(xs: seq<real>): (m: real)
    ensures |xs| == 0 ==> m == 0.0
    ensures |xs| > 0 ==> m in xs
    ensures forall i :: 0 <= i < |xs| ==> xs[i] <= m
  {
    if |xs| > 0 then Max(xs) else 0.0
  }

  /** `summary()` read at instant `now`. */
  function Summarize(b: Benchmark, now: real, sqrt: real -> real): (s: Summary)
    requires IsSqrt(sqrt)
    ensures |b.latencies| == 0 ==>
      s.averageLatency == 0.0 && s.stddevLatency == 0.0 &&
      s.minLatency == 0.0 && s.maxLatency == 0.0
    ensures |b.latencies| > 0 ==>
      s.minLatency in b.latencies && s.maxLatency in b.latencies &&
      s.averageLatency == Mean(b.latencies) &&
      s.minLatency <= s.averageLatency <= s.maxLatency
    ensures forall i :: 0 <= i < |b.latencies| ==> s.minLatency <= b.latencies[i] <= s.maxLatency
    ensures 0.0 <= s.stddevLatency
    ensures |b.latencies| <= 1 ==> s.stddevLatency == 0.0
    ensures s.throughput == Throughput(|b.latencies|, now - b.startTime)
    ensures s.errorRate == ErrorRate(|b.latencies|, b.errors)
  {
    var xs := b.latencies;
    Summary(AverageLatency(xs), StddevLatency(xs, sqrt), MinLatency(xs), MaxLatency(xs),
            Throughput(|xs|, now - b.startTime), ErrorRate(|xs|, b.errors))
  }

  /** Reading the same accumulator later changes only the throughput, and
      once the window is open a later reading never reports more. */
  lemma SummaryLaterRead(b: Benchmark, now: real, now': real, sqrt: real -> real)
    requires IsSqrt(sqrt)
    requires now <= now'
    ensures var s := Summarize(b, now, sqrt);
            var s' := Summarize(b, now', sqrt);
            && s' == s.(throughput := s'.throughput)
            && (b.startTime < now ==> s'.throughput <= s.throughput)
  {
    if b.startTime < now {
      ThroughputMonotonic(|b.latencies|, now - b.startTime, now' - b.startTime);
    }
  }

  /** An accumulator with no samples and no errors summarises to all zeros,
      whatever the clock reads. */
  lemma EmptySummaryIsZero(b: Benchmark, now: real, sqrt: real -> real)
    requires IsSqrt(sqrt)
    requires b.latencies == [] && b.errors == 0
    ensures Summarize(b, now, sqrt) == Summary(0.0, 0.0, 0.0, 0.0, 0.0, 0.0)
  {
  }

  /** After `reset`, the summary is all zeros at any later reading. */
  lemma ResetSummaryIsZero(b: Benchmark, resetAt: real, now: real, sqrt: real -> real)
    requires IsSqrt(sqrt)
    ensures Summarize(Reset(b, resetAt), now, sqrt) == Summary(0.0, 0.0, 0.0, 0.0, 0.0, 0.0)
  {
    EmptySummaryIsZero(Reset(b, resetAt), now, sqrt);
  }

  /** Recording a latency moves the extremes exactly as `min` and `max` of the
      longer list dictate, and the error rate becomes that of one more
      successful attempt. */
  lemma RecordLatencySummary(b: Benchmark, latency: real, now: real, sqrt: real -> real)
    requires IsSqrt(sqrt)
    ensures var s := Summarize(b, now, sqrt);
            var s' := Summarize(RecordLatency(b, latency), now, sqrt);
            && (|b.latencies| == 0 ==> s'.minLatency == latency && s'.maxLatency == latency)
            && (|b.latencies| > 0 ==>
                  s'.minLatency == (if latency < s.minLatency then latency else s.minLatency) &&
                  s'.maxLatency == (if s.maxLatency < latency then latency else s.maxLatency))
            && s'.errorRate == ErrorRate(|b.latencies| + 1, b.errors)
  {
  }

  /** Recording an error changes the error rate only: it becomes that of one
      more failed attempt, and every latency statistic and the throughput
      stay as they were. */
  lemma RecordErrorSummary(b: Benchmark, now: real, sqrt: real -> real)
    requires IsSqrt(sqrt)
    ensures Summarize(RecordError(b), now, sqrt)
         == Summarize(b, now, sqrt).(errorRate := ErrorRate(|b.latencies|, b.errors + 1))
  {
  }

  /** One more error never lowers the rate; one more success never raises it. */
  lemma ErrorRateMonotonic(count: nat, errors: nat)
    ensures ErrorRate(count, errors) <= ErrorRate(count, errors + 1)
    ensures ErrorRate(count + 1, errors) <= ErrorRate(count, errors)
  {
    if count + errors > 0 {
      var total := (count + errors) as real;
      FractionMonotonic(errors as real, total, errors as real + 1.0, total + 1.0);
      FractionMonotonic(errors as real, total + 1.0, errors as real, total);
    }
  }

  /** The same number of samples over a longer window is a lower
      throughput. */
  lemma ThroughputMonotonic(count: nat, elapsed: real, elapsed': real)
    requires 0.0 < elapsed <= elapsed'
    ensures Throughput(count, elapsed') <= Throughput(count, elapsed)
  {
  }

  /** a / b <= c / d when a * d <= c * b, for positive b and d. */
  lemma FractionMonotonic(a: real, b: real, c: real, d: real)
    requires 0.0 < b && 0.0 < d
    requires a * d <= c * b
    ensures a / b <= c / d
  {
  }

  /** Three samples of 10, 20 and 30 ms and one error, read two seconds after
      the window opened. */
  lemma ExampleSummary(sqrt: real -> real)
    requires IsSqrt(sqrt)
    ensures var b := RecordError(RecordLatency(RecordLatency(RecordLatency(New(0.0), 10.0), 20.0), 30.0));
            var s := Summarize(b, 2.0, sqrt);
            && s.averageLatency == 20.0
            && s.minLatency == 10.0 && s.maxLatency == 30.0
            && s.throughput == 1.5
            && s.errorRate == 25.0
  {
    var xs := [10.0, 20.0, 30.0];
    var b := RecordError(RecordLatency(RecordLatency(RecordLatency(New(0.0), 10.0), 20.0), 30.0));
    assert b.latencies == xs;
    assert xs[..2] == [10.0, 20.0] && xs[..2][..1] == [10.0];
    assert Sum([10.0]) == 10.0;
    assert Sum([10.0, 20.0]) == 30.0;
    assert Sum(xs) == 60.0;
    assert Mean(xs) == 20.0;
    assert Min(xs) == 10.0;
    assert Max(xs) == 30.0;
    assert Throughput(3, 2.0) == 1.5;
    assert ErrorRate(3, 1) == 25.0;
  }
}

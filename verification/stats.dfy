/** Descriptive statistics over exact reals: the builtins `sum`, `min`, `max`
    and the `statistics.mean` / `statistics.stdev` functions that the
    benchmark code applies to its latency samples and history columns.
    Floating point is replaced by `real`, so every result is the exact value
    those functions approximate. */
module Stats {

  /** `sum(xs)`: a left fold from 0, so the last element is added last. */
  function Sum(xs: seq<real>): real
  {
    if |xs| == 0 then 0.0 else Sum(xs[..|xs| - 1]) + xs[|xs| - 1]
  }

  /** `statistics.mean(xs)`, which raises on an empty list. */
  function Mean(xs: seq<real>): real
    requires |xs| > 0
  {
    Sum(xs) / |xs| as real
  }

  /** `min(xs)`, which raises on an empty list. */
  function Min(xs: seq<real>): (m: real)
    requires |xs| > 0
    ensures m in xs
    ensures forall i :: 0 <= i < |xs| ==> m <= xs[i]
  {
    if |xs| == 1 then xs[0]
    else
      var rest := Min(xs[..|xs| - 1]);
      if xs[|xs| - 1] < rest then xs[|xs| - 1] else rest
  }

  /** `max(xs)`, which raises on an empty list. */
  function Max(xs: seq<real>): (m: real)
    requires |xs| > 0
    ensures m in xs
    ensures forall i :: 0 <= i < |xs| ==> xs[i] <= m
  {
    if |xs| == 1 then xs[0]
    else
      var rest := Max(xs[..|xs| - 1]);
      if rest < xs[|xs| - 1] then xs[|xs| - 1] else rest
  }

  /** Sum of squared deviations of the samples from `mu`. */
  function SquaredDeviations(xs: seq<real>, mu: real): real
  {
    if |xs| == 0 then 0.0
    else
      var d := xs[|xs| - 1] - mu;
      SquaredDeviations(xs[..|xs| - 1], mu) + d * d
  }

  /** Sample variance, with the n - 1 denominator `statistics.stdev` uses;
      that function raises with fewer than two samples. */
  function SampleVariance(xs: seq<real>): real
    requires |xs| > 1
  {
    SquaredDeviations(xs, Mean(xs)) / (|xs| - 1) as real
  }

  /** What any square-root function passed to the model must satisfy on the
      non-negative reals. */
  ghost predicate IsSqrt(sqrt: real -> real)
  {
    forall x: real :: 0.0 <= x ==> 0.0 <= sqrt(x) && sqrt(x) * sqrt(x) == x
  }

  /** `statistics.stdev(xs)`: the square root of the sample variance. */
  function StdDev(xs: seq<real>, sqrt: real -> real): real
    requires |xs| > 1
  {
    sqrt(SampleVariance(xs))
  }

  /** A sum of n values lying in [lo, hi] lies in [n * lo, n * hi]. */
  lemma {:induction false} SumBounds(xs: seq<real>, lo: real, hi: real)
    requires forall i :: 0 <= i < |xs| ==> lo <= xs[i] <= hi
    ensures |xs| as real * lo <= Sum(xs) <= |xs| as real * hi
  {
    if |xs| > 0 {
      var init := xs[..|xs| - 1];
      assert forall i :: 0 <= i < |init| ==> init[i] == xs[i];
      SumBounds(init, lo, hi);
      assert |xs| as real * lo == |init| as real * lo + lo;
      assert |xs| as real * hi == |init| as real * hi + hi;
    }
  }

  /** Taking out the element at index j lowers the sum by exactly that
      element, wherever it sits. */
  lemma {:induction false} SumRemove(xs: seq<real>, j: nat)
    requires j < |xs|
    ensures Sum(xs) == Sum(xs[..j] + xs[j + 1..]) + xs[j]
    decreases |xs|
  {
    var n := |xs|;
    if j < n - 1 {
      var init := xs[..n - 1];
      SumRemove(init, j);
      var rest := xs[..j] + xs[j + 1..];
      assert rest[..|rest| - 1] == init[..j] + init[j + 1..];
      assert rest[|rest| - 1] == xs[n - 1];
    } else {
      assert xs[..j] + xs[j + 1..] == xs[..n - 1];
    }
  }

  /** Where a value occurs in a sequence, and what is left once that
      occurrence is taken out. */
  lemma PickOut<T>(xs: seq<T>, x: T) returns (j: nat)
    requires x in multiset(xs)
    ensures j < |xs| && xs[j] == x
    ensures multiset(xs[..j] + xs[j + 1..]) == multiset(xs) - multiset{x}
  {
    j :| 0 <= j < |xs| && xs[j] == x;
    assert xs == xs[..j] + [x] + xs[j + 1..];
    assert multiset(xs) == multiset(xs[..j]) + multiset{x} + multiset(xs[j + 1..]);
  }

  /** The sum does not depend on the order of the elements: lists holding
      the same values, each as often, have the same sum. */
  lemma {:induction false} SumPermutation(xs: seq<real>, ys: seq<real>)
    requires multiset(xs) == multiset(ys)
    ensures Sum(xs) == Sum(ys)
    decreases |xs|
  {
    if |xs| > 0 {
      var n := |xs|;
      var x := xs[n - 1];
      assert xs == xs[..n - 1] + [x];
      assert multiset(xs[..n - 1]) == multiset(xs) - multiset{x};
      var j := PickOut(ys, x);
      var ys' := ys[..j] + ys[j + 1..];
      SumPermutation(xs[..n - 1], ys');
      SumRemove(ys, j);
    } else {
      assert |ys| == 0;
    }
  }

  /** Dividing by a positive count keeps a value between the bounds it was
      scaled by. */
  lemma DivideBounds(a: real, n: real, lo: real, hi: real)
    requires 0.0 < n
    requires n * lo <= a <= n * hi
    ensures lo <= a / n <= hi
  {
  }

  /** The mean of a non-empty list lies between its minimum and maximum. */
  lemma {:induction false} MeanBounds(xs: seq<real>)
    requires |xs| > 0
    ensures Min(xs) <= Mean(xs) <= Max(xs)
  {
    SumBounds(xs, Min(xs), Max(xs));
    DivideBounds(Sum(xs), |xs| as real, Min(xs), Max(xs));
  }

  /** The mean times the number of samples gives back the sum. */
  lemma MeanTimesCount(xs: seq<real>)
    requires |xs| > 0
    ensures Mean(xs) * |xs| as real == Sum(xs)
  {
  }

  /** Squared deviations are never negative. */
  lemma {:induction false} SquaredDeviationsNonNegative(xs: seq<real>, mu: real)
    ensures 0.0 <= SquaredDeviations(xs, mu)
  {
    if |xs| > 0 {
      var d := xs[|xs| - 1] - mu;
      SquaredDeviationsNonNegative(xs[..|xs| - 1], mu);
      assert 0.0 <= d * d;
    }
  }

  /** The sample standard deviation is never negative. */
  lemma StdDevNonNegative(xs: seq<real>, sqrt: real -> real)
    requires |xs| > 1
    requires IsSqrt(sqrt)
    ensures 0.0 <= StdDev(xs, sqrt)
  {
    SquaredDeviationsNonNegative(xs, Mean(xs));
    DivideBounds(SquaredDeviations(xs, Mean(xs)), (|xs| - 1) as real, 0.0, SquaredDeviations(xs, Mean(xs)));
  }
}

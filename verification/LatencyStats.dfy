/** Latency percentiles, the fixed-bucket histogram and the count over a threshold. */
module LatencyStats {
  import opened Text

  // Percentiles by linear interpolation between neighbours of a sorted list.

  predicate Ascending(vs: seq<real>)
  {
    forall i, j :: 0 <= i <= j < |vs| ==> vs[i] <= vs[j]
  }

  function Position(n: nat, p: real): real
    requires n > 0
  {
    (n - 1) as real * p
  }

  lemma PositionBounds(n: nat, p: real)
    requires n > 0 && 0.0 <= p <= 1.0
    ensures 0.0 <= Position(n, p) <= (n - 1) as real
    ensures 0 <= Position(n, p).Floor <= n - 1
  {
    var k := (n - 1) as real;
    assert k * 0.0 == 0.0 && k * 1.0 == k;
    Scales(k, 0.0, p);
    Scales(k, p, 1.0);
  }

  lemma Scales(k: real, x: real, y: real)
    requires k >= 0.0 && x <= y
    ensures k * x <= k * y
  {
    assert k * (y - x) >= 0.0 && k * (y - x) == k * y - k * x;
  }

  function Lower(vs: seq<real>, p: real): (i: nat)
    requires vs != [] && 0.0 <= p <= 1.0
    ensures i < |vs|
  {
    PositionBounds(|vs|, p);
    Position(|vs|, p).Floor
  }

  function Upper(vs: seq<real>, p: real): (i: nat)
    requires vs != [] && 0.0 <= p <= 1.0
    ensures i < |vs|
  {
    if Lower(vs, p) + 1 < |vs| then Lower(vs, p) + 1 else |vs| - 1
  }

  function Weight(vs: seq<real>, p: real): (w: real)
    requires vs != [] && 0.0 <= p <= 1.0
    ensures 0.0 <= w < 1.0
  {
    PositionBounds(|vs|, p);
    Position(|vs|, p) - Lower(vs, p) as real
  }

  function Percentile(vs: seq<real>, p: real): Option<real>
    requires 0.0 <= p <= 1.0
  {
    if vs == [] then None
    else Some(vs[Lower(vs, p)] + (vs[Upper(vs, p)] - vs[Lower(vs, p)]) * Weight(vs, p))
  }

  lemma Convex(a: real, b: real, w: real)
    requires a <= b && 0.0 <= w <= 1.0
    ensures a <= a + (b - a) * w <= b
  {
    var gap, left := b - a, 1.0 - w;
    assert gap * w >= 0.0 && gap * left >= 0.0;
    assert gap * left == gap - gap * w;
  }

  /** The result lies between the two neighbours it interpolates. */
  lemma BetweenNeighbours(vs: seq<real>, p: real)
    requires Ascending(vs) && vs != [] && 0.0 <= p <= 1.0
    ensures vs[Lower(vs, p)] <= Percentile(vs, p).value <= vs[Upper(vs, p)]
  {
    assert Lower(vs, p) <= Upper(vs, p);
    Interpolated(vs, p);
    Convex(vs[Lower(vs, p)], vs[Upper(vs, p)], Weight(vs, p));
  }

  lemma PercentileBounds(vs: seq<real>, p: real)
    requires Ascending(vs) && vs != [] && 0.0 <= p <= 1.0
    ensures vs[0] <= Percentile(vs, p).value <= vs[|vs| - 1]
  {
    BetweenNeighbours(vs, p);
  }

  /** A larger fraction never gives a smaller percentile. */
  lemma PercentileMonotone(vs: seq<real>, p: real, q: real)
    requires Ascending(vs) && vs != [] && 0.0 <= p <= q <= 1.0
    ensures Percentile(vs, p).value <= Percentile(vs, q).value
  {
    Scales((|vs| - 1) as real, p, q);
    assert Position(|vs|, p) <= Position(|vs|, q);
    assert Lower(vs, p) <= Lower(vs, q);
    Interpolated(vs, p);
    Interpolated(vs, q);
    if Lower(vs, p) == Lower(vs, q) {
      Scales(vs[Upper(vs, p)] - vs[Lower(vs, p)], Weight(vs, p), Weight(vs, q));
    } else {
      BetweenNeighbours(vs, p);
      BetweenNeighbours(vs, q);
      assert Upper(vs, p) <= Lower(vs, q);
    }
  }

  /** At the ends the percentile is the minimum and the maximum, and at an exact position the element there. */
  lemma PercentileAtElement(vs: seq<real>, k: nat, p: real)
    requires k < |vs| && 0.0 <= p <= 1.0 && Position(|vs|, p) == k as real
    ensures Percentile(vs, p) == Some(vs[k])
  {
    assert Position(|vs|, p).Floor == k;
    assert Weight(vs, p) == 0.0;
  }

  /** Between two neighbours the percentile moves linearly with the fraction. */
  lemma PercentileBetween(vs: seq<real>, k: nat, w: real, p: real)
    requires k + 1 < |vs| && 0.0 <= w <= 1.0 && 0.0 <= p <= 1.0 && p * (|vs| - 1) as real == k as real + w
    ensures Percentile(vs, p).value == (1.0 - w) * vs[k] + w * vs[k + 1]
  {
    if w == 1.0 {
      PercentileAtElement(vs, k + 1, p);
    } else {
      assert Position(|vs|, p) == k as real + w;
      assert Lower(vs, p) == k && Upper(vs, p) == k + 1 && Weight(vs, p) == w;
      Interpolated(vs, p);
      Mixed(vs[k], vs[k + 1], w);
    }
  }

  lemma Interpolated(vs: seq<real>, p: real)
    requires vs != [] && 0.0 <= p <= 1.0
    ensures Percentile(vs, p).value == vs[Lower(vs, p)] + (vs[Upper(vs, p)] - vs[Lower(vs, p)]) * Weight(vs, p)
  {
  }

  lemma Mixed(a: real, b: real, w: real)
    ensures a + (b - a) * w == (1.0 - w) * a + w * b
  {
    assert (b - a) * w == b * w - a * w && (1.0 - w) * a == a - w * a;
  }

  /** The median of two latencies is their mean, and of three the middle one. */
  lemma Medians(a: real, b: real, c: real)
    ensures Percentile([a, b], 0.5).value == (a + b) / 2.0 && Percentile([a, b, c], 0.5) == Some(b)
  {
    PercentileBetween([a, b], 0, 0.5, 0.5);
    assert (1.0 - 0.5) * a + 0.5 * b == (a + b) / 2.0;
    PercentileAtElement([a, b, c], 1, 0.5);
  }

  /** The reported percentiles come out in order, below the reported maximum. */
  lemma ReportedPercentilesOrdered(vs: seq<real>)
    requires Ascending(vs) && vs != []
    ensures vs[0] <= Percentile(vs, 0.5).value <= Percentile(vs, 0.9).value <= Percentile(vs, 0.95).value
            <= Percentile(vs, 0.99).value <= vs[|vs| - 1]
  {
    PercentileBounds(vs, 0.5);
    PercentileMonotone(vs, 0.5, 0.9);
    PercentileMonotone(vs, 0.9, 0.95);
    PercentileMonotone(vs, 0.95, 0.99);
    PercentileBounds(vs, 0.99);
  }

  // The histogram.

  /** A floating-point latency in milliseconds. */
  datatype Latency = Ms(value: real) | PlusInfinity | MinusInfinity | NotANumber

  const BOUNDS: seq<real> := [10.0, 25.0, 50.0, 100.0, 200.0, 500.0, 1000.0]
  const BUCKETS: nat := 8

  /** Whether a latency has a meaning: finite and not negative, or infinitely long. */
  predicate Sane(x: Latency)
  {
    x.PlusInfinity? || (x.Ms? && x.value >= 0.0)
  }

  /** At most the bound; values without a meaning count as infinitely long. */
  predicate AtMost(x: Latency, bound: real)
  {
    x.Ms? && 0.0 <= x.value <= bound
  }

  /** The bucket's range: above the previous bound and at most its own. */
  predicate InBucket(x: Latency, b: nat)
    requires b < BUCKETS
  {
    (b > 0 ==> !AtMost(x, BOUNDS[b - 1])) && (b < BUCKETS - 1 ==> AtMost(x, BOUNDS[b]))
  }

  function CountIn(xs: seq<Latency>, b: nat): nat
    requires b < BUCKETS
  {
    if xs == [] then 0 else CountIn(xs[..|xs| - 1], b) + One(InBucket(xs[|xs| - 1], b))
  }

  lemma BoundsAscend(i: nat, j: nat)
    requires i < j < |BOUNDS|
    ensures BOUNDS[i] < BOUNDS[j]
  {
  }

  lemma BucketUnique(x: Latency, a: nat, b: nat)
    requires a < b < BUCKETS
    ensures !(InBucket(x, a) && InBucket(x, b))
  {
    if a < b - 1 {
      BoundsAscend(a, b - 1);
    }
  }

  /** The inner loop: the first bucket whose bound is not exceeded. */
  method FindBucket(x: Latency) returns (b: nat)
    ensures b < BUCKETS && InBucket(x, b)
  {
    b := 0;
    while b < |BOUNDS| && !AtMost(x, BOUNDS[b])
      invariant b <= |BOUNDS| && (b > 0 ==> !AtMost(x, BOUNDS[b - 1]))
    {
      b := b + 1;
    }
  }

  method Histogram(xs: seq<Latency>) returns (h: seq<nat>)
    ensures |h| == BUCKETS && forall b :: 0 <= b < BUCKETS ==> h[b] == CountIn(xs, b)
  {
    h := seq(BUCKETS, _ => 0);
    for n := 0 to |xs|
      invariant |h| == BUCKETS && forall b :: 0 <= b < BUCKETS ==> h[b] == CountIn(xs[..n], b)
    {
      assert xs[..n + 1][..n] == xs[..n];
      var k := FindBucket(xs[n]);
      forall b | 0 <= b < BUCKETS && b != k
        ensures !InBucket(xs[n], b)
      {
        if b < k { BucketUnique(xs[n], b, k); } else { BucketUnique(xs[n], k, b); }
      }
      h := h[k := h[k] + 1];
    }
    assert xs[..|xs|] == xs;
  }

  /** How many latencies fall in bucket `b` or a later one. */
  function CountFrom(xs: seq<Latency>, b: nat): nat
    requires b <= BUCKETS
    decreases BUCKETS - b
  {
    if b == BUCKETS then 0 else CountIn(xs, b) + CountFrom(xs, b + 1)
  }

  function Beyond(xs: seq<Latency>, bound: real): nat
  {
    if xs == [] then 0 else Beyond(xs[..|xs| - 1], bound) + One(!AtMost(xs[|xs| - 1], bound))
  }

  /** A latency lies in bucket `b` or a later one exactly when it exceeds the bound below `b`. */
  lemma {:induction false} CountFromSnoc(xs: seq<Latency>, b: nat)
    requires xs != [] && b <= BUCKETS
    ensures CountFrom(xs, b) == CountFrom(xs[..|xs| - 1], b)
      + One(b == 0 || (b < BUCKETS && !AtMost(xs[|xs| - 1], BOUNDS[b - 1])))
    decreases BUCKETS - b
  {
    if b < BUCKETS {
      CountFromSnoc(xs, b + 1);
      if 0 < b < |BOUNDS| {
        BoundsAscend(b - 1, b);
      }
    }
  }

  lemma {:induction false} CountFromIsBeyond(xs: seq<Latency>, b: nat)
    requires b < |BOUNDS|
    ensures CountFrom(xs, b + 1) == Beyond(xs, BOUNDS[b])
  {
    if xs == [] {
      NothingToCount(b + 1);
    } else {
      CountFromIsBeyond(xs[..|xs| - 1], b);
      CountFromSnoc(xs, b + 1);
    }
  }

  lemma {:induction false} NothingToCount(b: nat)
    requires b <= BUCKETS
    ensures CountFrom([], b) == 0
    decreases BUCKETS - b
  {
    if b < BUCKETS {
      NothingToCount(b + 1);
    }
  }

  /** The buckets partition the latencies. */
  lemma {:induction false} HistogramSums(xs: seq<Latency>)
    ensures CountFrom(xs, 0) == |xs|
  {
    if xs == [] {
      NothingToCount(0);
    } else {
      HistogramSums(xs[..|xs| - 1]);
      CountFromSnoc(xs, 0);
    }
  }

  /** Python's `latency > threshold`. */
  predicate Over(x: Latency, threshold: real)
  {
    x.PlusInfinity? || (x.Ms? && x.value > threshold)
  }

  function OverCount(xs: seq<Latency>, threshold: real): nat
  {
    if xs == [] then 0 else OverCount(xs[..|xs| - 1], threshold) + One(Over(xs[|xs| - 1], threshold))
  }

  function OddCount(xs: seq<Latency>): nat
  {
    if xs == [] then 0 else OddCount(xs[..|xs| - 1]) + One(!Sane(xs[|xs| - 1]))
  }

  lemma {:induction false} BeyondIsOverPlusOdd(xs: seq<Latency>, threshold: real)
    requires threshold > 0.0
    ensures Beyond(xs, threshold) == OverCount(xs, threshold) + OddCount(xs)
  {
    if xs != [] {
      BeyondIsOverPlusOdd(xs[..|xs| - 1], threshold);
    }
  }

  lemma {:induction false} OddCountZeroIff(xs: seq<Latency>)
    ensures OddCount(xs) == 0 <==> forall x :: x in xs ==> Sane(x)
  {
    if xs != [] {
      var front, last := xs[..|xs| - 1], xs[|xs| - 1];
      OddCountZeroIff(front);
      assert xs == front + [last] && last in xs;
    }
  }

  /** With a bucket bound as threshold, the buckets above it hold the over-threshold latencies and the senseless ones. */
  lemma BucketsAboveThreshold(xs: seq<Latency>, b: nat)
    requires b < |BOUNDS|
    ensures CountFrom(xs, b + 1) == OverCount(xs, BOUNDS[b]) + OddCount(xs)
    ensures CountFrom(xs, b + 1) == OverCount(xs, BOUNDS[b]) <==> forall x :: x in xs ==> Sane(x)
  {
    CountFromIsBeyond(xs, b);
    BeyondIsOverPlusOdd(xs, BOUNDS[b]);
    OddCountZeroIff(xs);
  }

  /** A negative latency lands in the last bucket but is not over any threshold. */
  lemma NegativeLatencyDisagrees(b: nat)
    requires b < |BOUNDS|
    ensures CountFrom([Ms(-1.0)], b + 1) == 1 && OverCount([Ms(-1.0)], BOUNDS[b]) == 0
  {
    BucketsAboveThreshold([Ms(-1.0)], b);
  }
}

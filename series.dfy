/** Column arithmetic shared by the metrics engine and the two strategies:
    price bars, values that may be missing (pandas' NaN), sums, means,
    variances, trailing windows and an abstract square root. */
module Series {

  /** A value that may be missing. Where pandas yields NaN, the model yields None. */
  datatype Option<+T> = None | Some(value: T)

  /** One OHLCV row of a price frame; `date` is the row's day number. */
  datatype Bar = Bar(date: nat, open: real, high: real, low: real, close: real, volume: nat)

  /** The `close` column of a frame. */
  function Closes(bars: seq<Bar>): (c: seq<real>)
    ensures |c| == |bars|
    ensures forall i :: 0 <= i < |bars| ==> c[i] == bars[i].close
  {
    seq(|bars|, i requires 0 <= i < |bars| => bars[i].close)
  }

  // Element-wise comparisons of two columns. A comparison that involves a
  // missing value is false, as every comparison with NaN is.

  predicate Greater(x: Option<real>, y: Option<real>)
  {
    x.Some? && y.Some? && x.value > y.value
  }

  predicate Less(x: Option<real>, y: Option<real>)
  {
    x.Some? && y.Some? && x.value < y.value
  }

  predicate AtMost(x: Option<real>, y: Option<real>)
  {
    x.Some? && y.Some? && x.value <= y.value
  }

  predicate AtLeast(x: Option<real>, y: Option<real>)
  {
    x.Some? && y.Some? && x.value >= y.value
  }

  /** Every element is strictly positive. */
  predicate AllPositive(xs: seq<real>)
  {
    forall i :: 0 <= i < |xs| ==> xs[i] > 0.0
  }

  /** Every element equals every other. */
  predicate Constant(xs: seq<real>)
  {
    forall i, j :: 0 <= i < |xs| && 0 <= j < |xs| ==> xs[i] == xs[j]
  }

  /** Each element is at least the one before it. */
  predicate Nondecreasing(xs: seq<real>)
  {
    forall i :: 0 <= i < |xs| - 1 ==> xs[i] <= xs[i + 1]
  }

  /** Each element is greater than the one before it. */
  predicate Increasing(xs: seq<real>)
  {
    forall i :: 0 <= i < |xs| - 1 ==> xs[i] < xs[i + 1]
  }

  function Sum(xs: seq<real>): real
  {
    if |xs| == 0 then 0.0 else xs[0] + Sum(xs[1..])
  }

  function Mean(xs: seq<real>): real
    requires |xs| > 0
  {
    Sum(xs) / |xs| as real
  }

  /** The sum of the squared deviations of the elements of `xs` from `m`. */
  function SquaredDeviations(xs: seq<real>, m: real): (r: real)
    ensures r >= 0.0
  {
    if |xs| == 0 then 0.0
    else
      SquareNonNegative(xs[0] - m);
      (xs[0] - m) * (xs[0] - m) + SquaredDeviations(xs[1..], m)
  }

  /** Variance with divisor n (pandas `std(ddof=0)` squared). */
  function PopulationVariance(xs: seq<real>): (v: real)
    requires |xs| > 0
    ensures v >= 0.0
  {
    SquaredDeviations(xs, Mean(xs)) / |xs| as real
  }

  /** Variance with divisor n - 1 (pandas' default `std()`, ddof=1, squared). */
  function SampleVariance(xs: seq<real>): (v: real)
    requires |xs| > 1
    ensures v >= 0.0
  {
    SquaredDeviations(xs, Mean(xs)) / (|xs| - 1) as real
  }

  /** `sqrt` is the non-negative square root on the non-negative reals.
      The root of zero is stated outright: it follows from the rest, but the
      solver does not derive it reliably. */
  ghost predicate IsSqrt(sqrt: real -> real)
  {
    && sqrt(0.0) == 0.0
    && forall x :: 0.0 <= x ==> 0.0 <= sqrt(x) && sqrt(x) * sqrt(x) == x
  }

  /** pandas' sample standard deviation: missing (NaN) for fewer than two values. */
  function SampleStd(xs: seq<real>, sqrt: real -> real): (s: Option<real>)
    requires IsSqrt(sqrt)
    ensures s.Some? <==> |xs| >= 2
    ensures s.Some? ==> s.value >= 0.0 && s.value * s.value == SampleVariance(xs)
  {
    if |xs| < 2 then None else Some(sqrt(SampleVariance(xs)))
  }

  /** Data that varies has a positive sample standard deviation. */
  lemma SampleStdPositive(xs: seq<real>, sqrt: real -> real)
    requires IsSqrt(sqrt) && |xs| >= 2 && !Constant(xs)
    ensures SampleStd(xs, sqrt) == Some(sqrt(SampleVariance(xs)))
    ensures sqrt(SampleVariance(xs)) > 0.0
  {
    VarianceZeroIffConstant(xs);
    SqrtPositive(sqrt, SampleVariance(xs));
  }

  /** The window of `period` values that ends at row `i`. */
  function Trailing(xs: seq<real>, period: int, i: int): (w: seq<real>)
    requires 1 <= period <= i + 1 <= |xs|
    ensures |w| == period
    ensures forall j :: 0 <= j < period ==> w[j] == xs[i + 1 - period + j]
  {
    xs[i + 1 - period .. i + 1]
  }

  /** Row `i` of `rolling(window=period).mean()`: missing until the window fills. */
  function RollingMean(xs: seq<real>, period: int, i: int): (r: Option<real>)
    requires period >= 1 && 0 <= i < |xs|
  {
    if i + 1 >= period then Some(Mean(Trailing(xs, period, i))) else None
  }

  /** Row `i` of `rolling(window=period).std(ddof=0)`: missing until the window fills. */
  function RollingPopulationStd(xs: seq<real>, period: int, i: int, sqrt: real -> real): (r: Option<real>)
    requires period >= 1 && 0 <= i < |xs|
  {
    if i + 1 >= period then Some(sqrt(PopulationVariance(Trailing(xs, period, i)))) else None
  }

  // ---------------------------------------------------------------------
  // Lemmas about sums and deviations

  lemma {:induction false} SumAppend(a: seq<real>, b: seq<real>)
    ensures Sum(a + b) == Sum(a) + Sum(b)
  {
    if |a| == 0 {
      assert a + b == b;
    } else {
      assert (a + b)[1..] == a[1..] + b;
      SumAppend(a[1..], b);
    }
  }

  lemma {:induction false} SumOfConstant(xs: seq<real>, c: real)
    requires forall i :: 0 <= i < |xs| ==> xs[i] == c
    ensures Sum(xs) == |xs| as real * c
  {
    if |xs| > 0 {
      SumOfConstant(xs[1..], c);
    }
  }

  /** A non-empty sequence whose elements all lie below `c` sums to less than |xs|·c. */
  lemma {:induction false} SumBelow(xs: seq<real>, c: real)
    requires |xs| > 0
    requires forall i :: 0 <= i < |xs| ==> xs[i] < c
    ensures Sum(xs) < |xs| as real * c
  {
    if |xs| > 1 {
      SumBelow(xs[1..], c);
    }
  }

  /** A non-empty sequence whose elements all lie above `c` sums to more than |xs|·c. */
  lemma {:induction false} SumAbove(xs: seq<real>, c: real)
    requires |xs| > 0
    requires forall i :: 0 <= i < |xs| ==> xs[i] > c
    ensures Sum(xs) > |xs| as real * c
  {
    if |xs| > 1 {
      SumAbove(xs[1..], c);
    }
  }

  lemma {:induction false} SumAtLeast(xs: seq<real>, c: real)
    requires forall i :: 0 <= i < |xs| ==> xs[i] >= c
    ensures Sum(xs) >= |xs| as real * c
  {
    if |xs| > 0 {
      SumAtLeast(xs[1..], c);
    }
  }

  lemma MeanOfConstant(xs: seq<real>, c: real)
    requires |xs| > 0
    requires forall i :: 0 <= i < |xs| ==> xs[i] == c
    ensures Mean(xs) == c
  {
    SumOfConstant(xs, c);
  }

  lemma MeanTimesCount(xs: seq<real>)
    requires |xs| > 0
    ensures Mean(xs) * |xs| as real == Sum(xs)
  {
  }

  /** Elements all at least `c` have a mean at least `c`. */
  lemma MeanAtLeast(xs: seq<real>, c: real)
    requires |xs| > 0
    requires forall i :: 0 <= i < |xs| ==> xs[i] >= c
    ensures Mean(xs) >= c
  {
    SumAtLeast(xs, c);
    MeanTimesCount(xs);
    ScaleOrder(c, Mean(xs), |xs| as real);
  }

  /** Prefixing values that all lie below the mean of `b` pulls the mean down. */
  lemma MeanOfSplit(a: seq<real>, b: seq<real>)
    requires |a| > 0 && |b| > 0
    requires forall i :: 0 <= i < |a| ==> a[i] < Mean(b)
    ensures Mean(a + b) < Mean(b)
  {
    var m := Mean(b);
    SumBelow(a, m);
    SumAppend(a, b);
    MeanTimesCount(b);
    MeanTimesCount(a + b);
    var na := |a| as real;
    var nb := |b| as real;
    var n := |a + b| as real;
    assert n == na + nb;
    calc {
      Mean(a + b) * n;
    == Sum(a + b);
    == Sum(a) + Sum(b);
    < m * na + m * nb;
    == m * (na + nb);
    == m * n;
    }
    ScaleOrder(Mean(a + b), m, n);
  }

  /** In an increasing sequence every earlier element is smaller. */
  lemma {:induction false} IncreasingLess(xs: seq<real>, j: int, k: int)
    requires Increasing(xs) && 0 <= j < k < |xs|
    ensures xs[j] < xs[k]
  {
    if j < k - 1 {
      IncreasingLess(xs, j, k - 1);
    }
  }

  lemma {:induction false} SquaredDeviationsAppend(a: seq<real>, b: seq<real>, m: real)
    ensures SquaredDeviations(a + b, m) == SquaredDeviations(a, m) + SquaredDeviations(b, m)
  {
    if |a| == 0 {
      assert a + b == b;
    } else {
      assert (a + b)[1..] == a[1..] + b;
      SquaredDeviationsAppend(a[1..], b, m);
    }
  }

  lemma {:induction false} SquaredDeviationsOfConstant(xs: seq<real>, c: real, m: real)
    requires forall i :: 0 <= i < |xs| ==> xs[i] == c
    ensures SquaredDeviations(xs, m) == |xs| as real * ((c - m) * (c - m))
  {
    if |xs| > 0 {
      SquaredDeviationsOfConstant(xs[1..], c, m);
    }
  }

  lemma SquareNonNegative(d: real)
    ensures d * d >= 0.0
  {
    if d < 0.0 {
      assert d * d == (-d) * (-d);
    }
  }

  lemma SquarePositive(d: real)
    ensures d != 0.0 ==> d * d > 0.0
  {
    if d < 0.0 {
      assert d * d == (-d) * (-d);
    }
  }

  /** Squaring is strictly increasing on the non-negative reals. */
  lemma SquareIncreasing(a: real, b: real)
    requires 0.0 <= a < b
    ensures a * a < b * b
  {
    calc {
      a * a;
    <= a * b;
    < b * b;
    }
  }

  /** One element away from `m` makes the squared deviations positive. */
  lemma {:induction false} SquaredDeviationsPositive(xs: seq<real>, m: real, i: int)
    requires 0 <= i < |xs| && xs[i] != m
    ensures SquaredDeviations(xs, m) > 0.0
  {
    var d := xs[0] - m;
    if i == 0 {
      calc {
        SquaredDeviations(xs, m);
      == d * d + SquaredDeviations(xs[1..], m);
      >= d * d;
      > { SquarePositive(d); }
        0.0;
      }
    } else {
      SquareNonNegative(d);
      assert xs[1..][i - 1] == xs[i];
      SquaredDeviationsPositive(xs[1..], m, i - 1);
    }
  }

  /** The squared deviations from `m` vanish exactly when every element is `m`. */
  lemma SquaredDeviationsZero(xs: seq<real>, m: real)
    ensures SquaredDeviations(xs, m) == 0.0 <==> forall i :: 0 <= i < |xs| ==> xs[i] == m
  {
    if forall i :: 0 <= i < |xs| ==> xs[i] == m {
      SquaredDeviationsOfConstant(xs, m, m);
    } else {
      var i :| 0 <= i < |xs| && xs[i] != m;
      SquaredDeviationsPositive(xs, m, i);
    }
  }

  /** Both variances vanish exactly when the values are constant. */
  lemma VarianceZeroIffConstant(xs: seq<real>)
    requires |xs| > 0
    ensures PopulationVariance(xs) == 0.0 <==> Constant(xs)
    ensures |xs| > 1 ==> (SampleVariance(xs) == 0.0 <==> Constant(xs))
  {
    var m := Mean(xs);
    SquaredDeviationsZero(xs, m);
    if Constant(xs) {
      MeanOfConstant(xs, xs[0]);
    } else {
      var i, j :| 0 <= i < |xs| && 0 <= j < |xs| && xs[i] != xs[j];
      assert SquaredDeviations(xs, m) != 0.0;
    }
  }

  /** Dividing by a positive number keeps the order against 1. */
  lemma RatioAgainstOne(a: real, b: real)
    requires b > 0.0
    ensures a / b < 1.0 <==> a < b
    ensures a / b == 1.0 <==> a == b
    ensures a / b > 1.0 <==> a > b
  {
    var q := a / b;
    assert q * b == a;
    if q < 1.0 {
      calc { a; == q * b; < 1.0 * b; }
    } else if q > 1.0 {
      calc { a; == q * b; > 1.0 * b; }
    }
  }

  lemma PositiveProduct(a: real, b: real)
    requires a > 0.0 && b > 0.0
    ensures a * b > 0.0
  {
  }

  lemma NonNegativeProduct(a: real, b: real)
    requires a >= 0.0 && b >= 0.0
    ensures a * b >= 0.0
  {
    if a > 0.0 && b > 0.0 {
      PositiveProduct(a, b);
    }
  }

  /** Multiplying by a positive number keeps the order. */
  lemma ScaleOrder(x: real, y: real, n: real)
    requires n > 0.0
    ensures x < y <==> x * n < y * n
    ensures x <= y <==> x * n <= y * n
  {
    if x < y {
      PositiveProduct(y - x, n);
      assert (y - x) * n == y * n - x * n;
    } else if x > y {
      PositiveProduct(x - y, n);
      assert (x - y) * n == x * n - y * n;
    }
  }

  /** Scaling by a positive number keeps the sign of a non-negative number. */
  lemma ScaledSign(a: real, b: real)
    requires a >= 0.0 && b > 0.0
    ensures a * b >= 0.0
    ensures a * b > 0.0 <==> a > 0.0
  {
    if a > 0.0 {
      PositiveProduct(a, b);
    }
  }

  /** A quotient by a positive number has the sign of its numerator. */
  lemma QuotientSign(x: real, y: real)
    requires y > 0.0
    ensures x / y > 0.0 <==> x > 0.0
    ensures x / y < 0.0 <==> x < 0.0
    ensures x / y == 0.0 <==> x == 0.0
  {
    var q := x / y;
    assert q * y == x;
    if q > 0.0 {
      PositiveProduct(q, y);
    } else if q < 0.0 {
      PositiveProduct(-q, y);
      assert (-q) * y == -x;
    }
  }

  lemma SqrtPositive(sqrt: real -> real, x: real)
    requires IsSqrt(sqrt)
    requires x > 0.0
    ensures sqrt(x) > 0.0
  {
    var s := sqrt(x);
    assert s >= 0.0 && s * s == x;
  }
}

/**
 * `detect_statistical_anomaly` (db/functions/detect_anomaly.sql:3-33) and how many values it can
 * flag at all.
 */
module Anomaly {
  import opened Options
  import opened RealFacts
  import opened Sums
  import opened VectorMath

  /** The sample standard deviation STDDEV: NULL below two values. */
  function StdDev(values: seq<real>, sqrt: real -> real): Option<real> {
    if |values| < 2 then None
    else Some(sqrt(Spread(values, Mean(values)) / (|values| - 1) as real))
  }

  function ZScore(val: real, mean: real, stdDev: real): real
    requires stdDev != 0.0
  {
    (if val - mean < 0.0 then -(val - mean) else val - mean) / stdDev
  }

  /** The flags the function returns. */
  function Flags(values: seq<real>, threshold: real, sqrt: real -> real): (f: seq<bool>)
    ensures |f| == |values|
  {
    var s := StdDev(values, sqrt);
    if s.None? || s.value == 0.0 then seq(|values|, _ => true)
    else seq(|values|, i requires 0 <= i < |values| =>
           ZScore(values[i], Mean(values), s.value) > threshold)
  }

  method DetectStatisticalAnomaly(values: seq<real>, threshold: real, sqrt: real -> real)
    returns (result: seq<bool>)
    ensures result == Flags(values, threshold, sqrt)
  {
    var stdDev := StdDev(values, sqrt);
    if stdDev.None? || stdDev.value == 0.0 {
      return seq(|values|, _ => true);
    }
    var mean := Mean(values);
    result := [];
    for i := 0 to |values|
      invariant result == Flags(values, threshold, sqrt)[..i]
    {
      result := result + [ZScore(values[i], mean, stdDev.value) > threshold];
    }
  }

  function CountTrue(flags: seq<bool>): nat {
    PopCount(flags)
  }

  // ---------------------------------------------------------------- which values are flagged

  /** A flag means the squared deviation exceeds k^2 s^2. */
  lemma {:induction false} FlagIsSquare(d: real, s: real, k: real)
    requires s > 0.0 && k >= 0.0
    ensures ZScore(d, 0.0, s) > k <==> Prod(d, d) > Prod(k, k) * Prod(s, s)
  {
    var m := if d < 0.0 then -d else d;
    QuotientBounds(m, s, k);
    assert Prod(m, m) == Prod(d, d);
    assert Prod(k * s, k * s) == Prod(k, k) * Prod(s, s);
    ProductNonNegative(k, s);
    SquareOrder(m, k * s);
  }

  /** There is no usable deviation exactly if all values are the same, as they are below two. */
  lemma {:induction false} NoDeviationWhen(values: seq<real>, sqrt: real -> real)
    requires IsSqrt(sqrt)
    ensures var s := StdDev(values, sqrt);
            && (s.None? || s.value == 0.0 <==> Constant(values))
            && (s.Some? ==> s.value >= 0.0
                            && Dot(Deviations(values, Mean(values)), Deviations(values, Mean(values)))
                               == (|values| - 1) as real * Prod(s.value, s.value))
  {
    hide Prod, Dot, Sum;
    if |values| >= 2 {
      var t, n := Spread(values, Mean(values)), (|values| - 1) as real;
      DotSelf(Deviations(values, Mean(values)));
      QuotientSign(t, n);
      ProductQuotient(t, n);
      VarianceSign(values);
      QuotientSign(t, |values| as real);
      ZeroRoot(sqrt(t / n), t / n);
    }
  }

  lemma {:induction false} ZeroRoot(s: real, x: real)
    requires Prod(s, s) == x
    ensures s == 0.0 <==> x == 0.0
  {
    if s == 0.0 {
      ZeroProduct(s);
    } else {
      SquarePositive(s);
    }
  }

  /** With a usable deviation the score of the plain deviation decides. */
  lemma {:induction false} ScoreDecides(values: seq<real>, k: real, sqrt: real -> real, i: nat)
    requires i < |values| && StdDev(values, sqrt).Some? && StdDev(values, sqrt).value != 0.0
    ensures Flags(values, k, sqrt)[i]
            <==> ZScore(Deviations(values, Mean(values))[i], 0.0, StdDev(values, sqrt).value) > k
  {
    hide Mean, Spread;
  }

  lemma {:induction false} CompareScaled(n: real, x: real, p: real, q: real, t: real)
    requires n > 0.0 && t == n * q
    ensures x > p * q <==> Prod(n, x) > Prod(p, t)
  {
    assert Prod(p, t) == n * (p * q);
    if x > p * q {
      ProductStrict(p * q, x, n);
    } else {
      ProductMonotone(x, p * q, n);
    }
  }

  /**
   * Main theorem: a value is flagged exactly if all values are the same, or the threshold is
   * negative, or (n - 1) d^2 exceeds k^2 times the sum of the squared deviations.
   */
  lemma {:induction false} FlaggedWhen(values: seq<real>, k: real, sqrt: real -> real, i: nat)
    requires IsSqrt(sqrt) && i < |values|
    ensures var d := Deviations(values, Mean(values));
            Flags(values, k, sqrt)[i]
            <==> || (forall j, l :: 0 <= j < l < |values| ==> values[j] == values[l])
                 || k < 0.0
                 || Prod((|values| - 1) as real, Prod(d[i], d[i])) > Prod(Prod(k, k), Dot(d, d))
  {
    hide Prod, Dot, Mean, StdDev, ZScore;
    NoDeviationWhen(values, sqrt);
    var d := Deviations(values, Mean(values));
    if !Constant(values) {
      hide Flags;
      var s := StdDev(values, sqrt).value;
      ScoreDecides(values, k, sqrt, i);
      if k >= 0.0 {
        FlagIsSquare(d[i], s, k);
        CompareScaled((|values| - 1) as real, Prod(d[i], d[i]), Prod(k, k), Prod(s, s), Dot(d, d));
      } else {
        ScoreNotNegative(d[i], s);
      }
    } else {
      assert Flags(values, k, sqrt)[i];
    }
  }

  lemma {:induction false} ScoreNotNegative(d: real, s: real)
    requires s > 0.0
    ensures ZScore(d, 0.0, s) >= 0.0
  {
    QuotientBounds(if d < 0.0 then -d else d, s, 0.0);
  }

  // ---------------------------------------------------------------- how many can be flagged

  /** Each flagged deviation takes more than `c` of the sum of squares. */
  lemma {:induction false} SquaresAbove(d: seq<real>, flags: seq<bool>, c: real)
    requires |d| == |flags| && c >= 0.0
    requires forall i :: 0 <= i < |d| && flags[i] ==> Prod(d[i], d[i]) > c
    ensures Dot(d, d) >= CountTrue(flags) as real * c
    ensures CountTrue(flags) > 0 ==> Dot(d, d) > CountTrue(flags) as real * c
  {
    hide Prod;
    if d != [] {
      var x := d[|d| - 1];
      SquaresAbove(d[..|d| - 1], flags[..|d| - 1], c);
      SquareNotNegative(x);
      assert (CountTrue(flags[..|d| - 1]) + 1) as real * c == CountTrue(flags[..|d| - 1]) as real * c + c;
    }
  }

  lemma {:induction false} SquareNotNegative(x: real)
    ensures Prod(x, x) >= 0.0
  {
    if x == 0.0 {
      ZeroProduct(x);
    } else {
      SquarePositive(x);
    }
  }

  /** The hypotheses under which scores are computed: two values that differ, threshold k > 0. */
  ghost predicate Scored(values: seq<real>, k: real, sqrt: real -> real) {
    && IsSqrt(sqrt) && k > 0.0
    && StdDev(values, sqrt).Some? && StdDev(values, sqrt).value != 0.0
  }

  lemma {:induction false} ScoredFacts(values: seq<real>, k: real, sqrt: real -> real)
    requires Scored(values, k, sqrt)
    ensures var d, s := Deviations(values, Mean(values)), StdDev(values, sqrt).value;
            && s > 0.0 && |values| >= 2
            && Dot(d, d) == (|values| - 1) as real * Prod(s, s)
            && Sum(d) == 0.0
            && forall i :: 0 <= i < |d| ==>
                 (Flags(values, k, sqrt)[i] <==> Prod(d[i], d[i]) > Prod(k, k) * Prod(s, s))
  {
    hide Prod, Dot, Sum, Flags, ZScore, Mean;
    NoDeviationWhen(values, sqrt);
    DeviationsCancel(values);
    forall i | 0 <= i < |values|
      ensures var d, s := Deviations(values, Mean(values)), StdDev(values, sqrt).value;
              Flags(values, k, sqrt)[i] <==> Prod(d[i], d[i]) > Prod(k, k) * Prod(s, s)
    {
      FlagIsScored(values, k, sqrt, i);
    }
  }

  lemma {:induction false} FlagIsScored(values: seq<real>, k: real, sqrt: real -> real, i: nat)
    requires Scored(values, k, sqrt) && i < |values|
    ensures var d, s := Deviations(values, Mean(values)), StdDev(values, sqrt).value;
            Flags(values, k, sqrt)[i] <==> Prod(d[i], d[i]) > Prod(k, k) * Prod(s, s)
  {
    hide Prod, Dot, Flags, ZScore, StdDev, Mean;
    NoDeviationWhen(values, sqrt);
    ScoreDecides(values, k, sqrt, i);
    FlagIsSquare(Deviations(values, Mean(values))[i], StdDev(values, sqrt).value, k);
  }

  lemma {:induction false} DeviationsCancel(values: seq<real>)
    requires values != []
    ensures Sum(Deviations(values, Mean(values))) == 0.0
  {
    hide Sum;
    DeviationSum(values, Mean(values));
    MeanTimesCount(Sum(values), |values| as real);
  }

  lemma {:induction false} MeanTimesCount(t: real, n: real)
    requires n > 0.0
    ensures t - n * (t / n) == 0.0
  {
  }

  lemma {:induction false} ProductQuotient(a: real, n: real)
    requires n > 0.0
    ensures n * (a / n) == a
  {
  }

  /** The Chebyshev bound: `m` flags need m k^2 <= n - 1, strictly as soon as there is one. */
  lemma {:induction false} FlagCountBound(values: seq<real>, k: real, sqrt: real -> real)
    requires Scored(values, k, sqrt)
    ensures var m := CountTrue(Flags(values, k, sqrt));
            && m as real * Prod(k, k) <= (|values| - 1) as real
            && (m > 0 ==> m as real * Prod(k, k) < (|values| - 1) as real)
  {
    hide Prod, Dot, Sum, StdDev, Flags, CountTrue;
    ScoredFacts(values, k, sqrt);
    var flags, d, s := Flags(values, k, sqrt), Deviations(values, Mean(values)), StdDev(values, sqrt).value;
    SquarePositive(k);
    SquarePositive(s);
    ProductNonNegative(Prod(k, k), Prod(s, s));
    SquaresAbove(d, flags, Prod(k, k) * Prod(s, s));
    CancelFactor(CountTrue(flags) as real, Prod(k, k), Prod(s, s), (|values| - 1) as real);
  }

  lemma {:induction false} CancelFactor(m: real, p: real, q: real, n: real)
    requires q > 0.0
    ensures n * q >= m * (p * q) ==> m * p <= n
    ensures n * q > m * (p * q) ==> m * p < n
  {
    assert m * (p * q) == m * p * q;
    if m * p > n {
      ProductStrict(n, m * p, q);
    }
  }

  // ---------------------------------------------------------------- whether one can be flagged

  /** n - 1 at position `i` and -1 everywhere else. */
  function Spike(m: nat, i: nat, n: nat): (v: seq<real>)
    ensures |v| == m
  {
    seq(m, j => if j == i then (n - 1) as real else -1.0)
  }

  lemma {:induction false} DotWithSpike(d: seq<real>, i: nat, n: nat)
    ensures Dot(d, Spike(|d|, i, n)) == (if i < |d| then n as real * d[i] else 0.0) - Sum(d)
  {
    if d != [] {
      var m := |d| - 1;
      DotWithSpike(d[..m], i, n);
      assert Spike(|d|, i, n)[..m] == Spike(m, i, n);
    }
  }

  lemma {:induction false} SumOfSpike(m: nat, i: nat, n: nat)
    ensures Sum(Spike(m, i, n)) == (if i < m then n as real else 0.0) - m as real
  {
    if m > 0 {
      SumOfSpike(m - 1, i, n);
      assert Spike(m, i, n)[..m - 1] == Spike(m - 1, i, n);
    }
  }

  lemma {:induction false} SpikeSquare(i: nat, n: nat)
    requires i < n
    ensures Dot(Spike(n, i, n), Spike(n, i, n)) == n as real * (n - 1) as real
    ensures Sum(Spike(n, i, n)) == 0.0
  {
    DotWithSpike(Spike(n, i, n), i, n);
    SumOfSpike(n, i, n);
  }

  /** Samuelson's bound: one deviation is at most the (n - 1)/n-th part of the sum of squares. */
  lemma {:induction false} OneDeviation(d: seq<real>, i: nat)
    requires i < |d| && Sum(d) == 0.0
    ensures |d| as real * Prod(d[i], d[i]) <= (|d| - 1) as real * Dot(d, d)
  {
    hide Dot, Sum;
    var n := |d|;
    var v := Spike(n, i, n);
    CauchySchwarz(d, v);
    DotWithSpike(d, i, n);
    SpikeSquare(i, n);
    CancelCount(n as real, d[i], Dot(d, d));
  }

  lemma {:induction false} CancelCount(n: real, x: real, q: real)
    requires n > 0.0 && Prod(n * x, n * x) <= Prod(q, n * (n - 1.0))
    ensures n * Prod(x, x) <= (n - 1.0) * q
  {
    var a, b := n * Prod(x, x), (n - 1.0) * q;
    assert Prod(n * x, n * x) == a * n && Prod(q, n * (n - 1.0)) == b * n;
    if a > b {
      ProductStrict(b, a, n);
    }
  }

  lemma {:induction false} FlagNeeds(values: seq<real>, k: real, sqrt: real -> real, i: nat)
    requires Scored(values, k, sqrt) && i < |values| && Flags(values, k, sqrt)[i]
    ensures var n := |values| as real; n * Prod(k, k) < Prod(n - 1.0, n - 1.0)
  {
    hide Prod, Dot, Sum, StdDev, Flags;
    ScoredFacts(values, k, sqrt);
    var d, s, n := Deviations(values, Mean(values)), StdDev(values, sqrt).value, |values| as real;
    OneDeviation(d, i);
    SquarePositive(s);
    FlagArithmetic(n, Prod(d[i], d[i]), Prod(k, k), Prod(s, s), Dot(d, d));
  }

  lemma {:induction false} FlagArithmetic(n: real, x: real, p: real, q: real, t: real)
    requires n > 0.0 && q > 0.0 && x > p * q
    requires t == (n - 1.0) * q && n * x <= (n - 1.0) * t
    ensures n * p < Prod(n - 1.0, n - 1.0)
  {
    ProductStrict(p * q, x, n);
    var r := Prod(n - 1.0, n - 1.0);
    assert (n - 1.0) * t == r * q;
    assert p * q * n == n * p * q;
    if r <= n * p {
      ProductMonotone(r, n * p, q);
    }
  }

  /** The spiked array has mean 0 and standard deviation sqrt(n). */
  lemma {:induction false} SpikeIsFlagged(n: nat, k: real, sqrt: real -> real)
    requires IsSqrt(sqrt) && k > 0.0 && n >= 2
    requires n as real * Prod(k, k) < Prod(n as real - 1.0, n as real - 1.0)
    ensures Scored(Spike(n, 0, n), k, sqrt) && Flags(Spike(n, 0, n), k, sqrt)[0]
  {
    hide Prod, Dot, Sum, Flags;
    var v, m := Spike(n, 0, n), n as real;
    SpikeSquare(0, n);
    assert Mean(v) == 0.0;
    assert Deviations(v, 0.0) == v;
    ProductQuotient(m, m - 1.0);
    QuotientOfProduct(m, m - 1.0);
    var s := StdDev(v, sqrt).value;
    assert Prod(s, s) == m;
    ZeroProduct(s);
    ScoredFacts(v, k, sqrt);
    assert v[0] == m - 1.0;
    assert Prod(k, k) * m == m * Prod(k, k);
  }

  lemma {:induction false} QuotientOfProduct(a: real, b: real)
    requires b > 0.0
    ensures a * b / b == a
  {
  }

  ghost predicate CanFlag(n: nat, k: real, sqrt: real -> real) {
    exists values: seq<real>, i: nat :: |values| == n && i < n
      && Scored(values, k, sqrt) && Flags(values, k, sqrt)[i]
  }

  /** Some array of `n` values gets a score-based flag exactly when n k^2 < (n - 1)^2. */
  lemma {:induction false} FlagPossibleWhen(n: nat, k: real, sqrt: real -> real)
    requires IsSqrt(sqrt) && k > 0.0 && n >= 2
    ensures CanFlag(n, k, sqrt) <==> n as real * Prod(k, k) < Prod(n as real - 1.0, n as real - 1.0)
  {
    hide Prod, Flags, Scored;
    if CanFlag(n, k, sqrt) {
      var values, i: nat :| |values| == n && i < n
        && Scored(values, k, sqrt) && Flags(values, k, sqrt)[i];
      FlagNeeds(values, k, sqrt, i);
    }
    if n as real * Prod(k, k) < Prod(n as real - 1.0, n as real - 1.0) {
      SpikeIsFlagged(n, k, sqrt);
    }
  }

  /** So with the default threshold of 2.5 nothing is ever flagged below nine values. */
  lemma {:induction false} DefaultThreshold(n: nat, sqrt: real -> real)
    requires IsSqrt(sqrt) && n >= 2
    ensures CanFlag(n, 2.5, sqrt) <==> n >= 9
  {
    hide CanFlag, IsSqrt;
    FlagPossibleWhen(n, 2.5, sqrt);
    SquareAgainstLine(n);
  }

  lemma {:induction false} SquareAgainstLine(n: nat)
    requires n >= 2
    ensures n as real * Prod(2.5, 2.5) < Prod(n as real - 1.0, n as real - 1.0) <==> n >= 9
  {
    var x := n as real;
    assert Prod(2.5, 2.5) == 6.25;
    assert Prod(x - 1.0, x - 1.0) == x * x - 2.0 * x + 1.0;
    var lower := if n >= 9 then 9.0 else 2.0;
    ProductMonotone(lower, x, x);
    if n < 9 {
      ProductNonNegative(x - 2.0, 8.0 - x);
      assert (x - 2.0) * (8.0 - x) == 10.0 * x - x * x - 16.0;
    }
  }
}

/** `detect_cross_correlation` (core/multi_channel_core.cpp:64-86). */
module Correlation {
  import opened RealFacts
  import opened Sums
  import opened VectorMath

  function Centred(s: seq<real>): (d: seq<real>)
    requires s != []
    ensures |d| == |s|
  {
    Deviations(s, Mean(s))
  }

  /** The last lines of the function; a tiny denominator counts as uncorrelated. */
  function Normalised(n: real, a: real, b: real, sqrt: real -> real): real {
    var denominator := sqrt(Prod(a, b));
    if denominator < 0.000001 then 0.0 else n / denominator
  }

  function CrossCorrelation(a: seq<real>, b: seq<real>, sqrt: real -> real): real
    requires |a| == |b| > 0
  {
    var u, v := Centred(a), Centred(b);
    Normalised(Dot(u, v), Dot(u, u), Dot(v, v), sqrt)
  }

  method DetectCrossCorrelation(a: array<real>, b: array<real>, sqrt: real -> real)
    returns (r: real)
    requires a.Length == b.Length > 0
    ensures r == CrossCorrelation(a[..], b[..], sqrt)
  {
    hide Prod, Mean;
    var meanA := MeanAvx512(a);
    var meanB := MeanAvx512(b);
    ghost var u, v := Centred(a[..]), Centred(b[..]);
    var numerator, denomA, denomB := 0.0, 0.0, 0.0;
    for i := 0 to a.Length
      invariant numerator == Dot(u[..i], v[..i])
      invariant denomA == Dot(u[..i], u[..i]) && denomB == Dot(v[..i], v[..i])
    {
      var diffA, diffB := a[i] - meanA, b[i] - meanB;
      NextElement(u, v, i);
      NextElement(u, u, i);
      NextElement(v, v, i);
      numerator := numerator + Prod(diffA, diffB);
      denomA := denomA + Prod(diffA, diffA);
      denomB := denomB + Prod(diffB, diffB);
    }
    assert u[..|u|] == u && v[..|v|] == v;
    var denominator := sqrt(Prod(denomA, denomB));
    if denominator < 0.000001 {
      return 0.0;
    }
    return numerator / denominator;
  }

  lemma {:induction false} RatioOfRoots(n: real, d: real)
    requires d > 0.0
    ensures Prod(n, n) <= Prod(d, d) <==> -1.0 <= n / d <= 1.0
    ensures Prod(n, n) == Prod(d, d) <==> n / d == 1.0 || n / d == -1.0
  {
    SquareOrder(n, d);
    QuotientBounds(n, d, 1.0);
    QuotientBounds(n, d, -1.0);
    SquaresEqual(n, d);
  }

  lemma {:induction false} SquaresEqual(n: real, d: real)
    requires d > 0.0
    ensures Prod(n, n) == Prod(d, d) <==> n == d || n == -d
  {
    var m := if n < 0.0 then -n else n;
    assert Prod(m, m) == Prod(n, n);
    if Prod(n, n) == Prod(d, d) {
      SquareInjective(m, d);
    }
  }

  lemma {:induction false} Nonnegative(u: seq<real>, v: seq<real>)
    requires |u| == |v|
    ensures Dot(u, u) >= 0.0 && Dot(v, v) >= 0.0
    ensures Prod(Dot(u, u), Dot(v, v)) >= 0.0
    ensures Dot(v, v) == 0.0 ==> Prod(Dot(u, u), Dot(v, v)) == 0.0
  {
    DotSelf(u);
    DotSelf(v);
    ProductNonNegative(Dot(u, u), Dot(v, v));
    ZeroProduct(Dot(u, u));
  }

  /** Cauchy-Schwarz keeps every correlation in [-1, 1]. */
  lemma {:induction false} CorrelationInRange(a: seq<real>, b: seq<real>, sqrt: real -> real)
    requires |a| == |b| > 0 && IsSqrt(sqrt)
    ensures -1.0 <= CrossCorrelation(a, b, sqrt) <= 1.0
  {
    hide Dot, Prod, Mean;
    var u, v := Centred(a), Centred(b);
    CauchySchwarz(u, v);
    Nonnegative(u, v);
    var d := sqrt(Prod(Dot(u, u), Dot(v, v)));
    if d >= 0.000001 {
      RatioOfRoots(Dot(u, v), d);
    }
  }

  /** It is extreme exactly when the centred channels are proportional (and not tiny). */
  lemma {:induction false} CorrelationExtremeWhen(a: seq<real>, b: seq<real>, sqrt: real -> real)
    requires |a| == |b| > 0 && IsSqrt(sqrt)
    ensures var u, v, r := Centred(a), Centred(b), CrossCorrelation(a, b, sqrt);
            (r == 1.0 || r == -1.0)
            <==> (&& sqrt(Prod(Dot(u, u), Dot(v, v))) >= 0.000001
                  && forall i :: 0 <= i < |u| ==> Dot(v, v) * u[i] == Dot(u, v) * v[i])
  {
    hide Dot, Prod, Mean;
    var u, v := Centred(a), Centred(b);
    CauchySchwarz(u, v);
    Nonnegative(u, v);
    var d := sqrt(Prod(Dot(u, u), Dot(v, v)));
    if d >= 0.000001 {
      RatioOfRoots(Dot(u, v), d);
      SquarePositive(d);
    }
  }

  lemma {:induction false} CorrelationSymmetric(a: seq<real>, b: seq<real>, sqrt: real -> real)
    requires |a| == |b| > 0
    ensures CrossCorrelation(a, b, sqrt) == CrossCorrelation(b, a, sqrt)
  {
    hide Dot, Mean;
    var u, v := Centred(a), Centred(b);
    DotSymmetric(u, v);
    assert Prod(Dot(u, u), Dot(v, v)) == Prod(Dot(v, v), Dot(u, u));
  }

  // ---------------------------------------------------------------- the correlation from the samples

  /** The sum over all pairs i < j of (a[i] - a[j]) (b[i] - b[j]). */
  function PairSum(a: seq<real>, b: seq<real>): real
    requires |a| == |b|
  {
    if a == [] then 0.0 else
    var m := |a| - 1;
    PairSum(a[..m], b[..m]) + Dot(Deviations(a[..m], a[m]), Deviations(b[..m], b[m]))
  }

  /** What shifting both factors of an inner product makes of it. */
  function Shifted(dot: real, s: real, t: real, n: real, x: real, y: real): real {
    dot - y * s - x * t + n * (x * y)
  }

  lemma {:induction false} DotOfDeviations(a: seq<real>, b: seq<real>, x: real, y: real)
    requires |a| == |b|
    ensures Dot(Deviations(a, x), Deviations(b, y)) == Shifted(Dot(a, b), Sum(a), Sum(b), |a| as real, x, y)
  {
    hide Prod, Shifted;
    if a == [] {
      ShiftedStep(0.0, 0.0, 0.0, 0.0, x, y, 0.0, 0.0);
    } else {
      var m := |a| - 1;
      DotOfDeviations(a[..m], b[..m], x, y);
      assert Deviations(a, x)[..m] == Deviations(a[..m], x) && Deviations(b, y)[..m] == Deviations(b[..m], y);
      ShiftedStep(Dot(a[..m], b[..m]), Sum(a[..m]), Sum(b[..m]), m as real, x, y, a[m], b[m]);
    }
  }

  lemma {:induction false} ShiftedStep(
    dot: real, s: real, t: real, n: real, x: real, y: real, c: real, d: real)
    ensures Shifted(dot, s, t, n, x, y) + Prod(c - x, d - y)
            == Shifted(dot + Prod(c, d), s + c, t + d, n + 1.0, x, y)
    ensures Shifted(0.0, 0.0, 0.0, 0.0, x, y) == 0.0
  {
    assert Prod(c - x, d - y) == c * d - c * y - x * d + x * y;
    assert (n + 1.0) * (x * y) == n * (x * y) + x * y;
  }

  lemma {:induction false} PairSumIs(a: seq<real>, b: seq<real>)
    requires |a| == |b|
    ensures PairSum(a, b) == Prod(|a| as real, Dot(a, b)) - Prod(Sum(a), Sum(b))
  {
    hide Prod, Shifted, Deviations;
    if a == [] {
      ZeroProduct(0.0);
    } else {
      var m := |a| - 1;
      PairSumIs(a[..m], b[..m]);
      DotOfDeviations(a[..m], b[..m], a[m], b[m]);
      PairStep(Dot(a[..m], b[..m]), Sum(a[..m]), Sum(b[..m]), m as real, a[m], b[m]);
    }
  }

  lemma {:induction false} PairStep(dot: real, s: real, t: real, n: real, x: real, y: real)
    ensures Prod(n, dot) - Prod(s, t) + Shifted(dot, s, t, n, x, y)
            == Prod(n + 1.0, dot + Prod(x, y)) - Prod(s + x, t + y)
  {
    assert (n + 1.0) * (dot + x * y) == n * dot + n * (x * y) + dot + x * y;
    assert (s + x) * (t + y) == s * t + y * s + x * t + x * y;
  }

  /** The inner product of the centred channels is the n-th part of the sum over pairs. */
  lemma {:induction false} CentredPairs(a: seq<real>, b: seq<real>)
    requires |a| == |b| > 0
    ensures Prod(|a| as real, Dot(Centred(a), Centred(b))) == PairSum(a, b)
  {
    hide Prod, Shifted, Dot, Sum, PairSum, Deviations;
    DotOfDeviations(a, b, Mean(a), Mean(b));
    PairSumIs(a, b);
    ShiftedByMeans(Dot(a, b), Sum(a), Sum(b), |a| as real);
  }

  lemma {:induction false} ShiftedByMeans(dot: real, s: real, t: real, n: real)
    requires n > 0.0
    ensures Prod(n, Shifted(dot, s, t, n, s / n, t / n)) == Prod(n, dot) - Prod(s, t)
  {
    var x, y := s / n, t / n;
    assert n * x == s && n * y == t;
    assert n * (y * s) == s * t && n * (x * t) == s * t;
    assert n * (n * (x * y)) == (n * x) * (n * y) == s * t;
    assert n * (dot - y * s - x * t + n * (x * y)) == n * dot - n * (y * s) - n * (x * t) + n * (n * (x * y));
  }

  /** What the root of a product says when compared and squared. */
  lemma {:induction false} RootCutoff(d: real, n: real, q: real, t: real)
    requires d >= 0.0 && n > 0.0 && t > 0.0 && Prod(n, Prod(n, Prod(d, d))) == q
    ensures d < t <==> q < Prod(Prod(n, t), Prod(n, t))
  {
    var x, y := n * d, n * t;
    assert x * x == q;
    ProductNonNegative(n, d);
    if d < t {
      ProductStrict(d, t, n);
      SquareStrict(x, y);
    } else {
      ProductMonotone(t, d, n);
      ProductStrict(0.0, t, n);
      ProductMonotone(y, x, y);
      ProductMonotone(y, x, x);
    }
  }

  lemma {:induction false} RatioFromPairs(num: real, d: real, n: real, p: real, q: real)
    requires d > 0.0 && n > 0.0
    requires Prod(n, num) == p && Prod(n, Prod(n, Prod(d, d))) == q
    ensures var r := num / d; Prod(Prod(r, r), q) == Prod(p, p) && (r > 0.0 <==> p > 0.0) && (r < 0.0 <==> p < 0.0)
  {
    var r := num / d;
    assert r * d == num;
    assert r * r * (n * (n * (d * d))) == (n * (r * d)) * (n * (r * d));
    SignOfProduct(n, num);
    QuotientBounds(num, d, 0.0);
  }

  lemma {:induction false} SignOfProduct(n: real, x: real)
    requires n > 0.0
    ensures (Prod(n, x) > 0.0 <==> x > 0.0) && (Prod(n, x) < 0.0 <==> x < 0.0)
  {
    if x > 0.0 {
      ProductStrict(0.0, x, n);
    } else if x < 0.0 {
      ProductStrict(x, 0.0, n);
    }
  }

  lemma {:induction false} ScaleBoth(n: real, a: real, b: real)
    ensures Prod(n, Prod(n, Prod(a, b))) == Prod(Prod(n, a), Prod(n, b))
  {
    assert n * (n * (a * b)) == (n * a) * (n * b);
  }

  /**
   * Main theorem: with P(x, y) the sum over pairs, the result is 0 if P(a, a) P(b, b) is below
   * (n 1e-6)^2, and otherwise the number with the sign of P(a, b) whose square times
   * P(a, a) P(b, b) is the square of P(a, b).
   */
  lemma {:induction false} CorrelationFromPairs(a: seq<real>, b: seq<real>, sqrt: real -> real)
    requires |a| == |b| > 0 && IsSqrt(sqrt)
    ensures var r, p, q := CrossCorrelation(a, b, sqrt), PairSum(a, b), Prod(PairSum(a, a), PairSum(b, b));
            var cutoff := Prod(|a| as real, 0.000001);
            if q < Prod(cutoff, cutoff) then r == 0.0
            else Prod(Prod(r, r), q) == Prod(p, p) && (r > 0.0 <==> p > 0.0) && (r < 0.0 <==> p < 0.0)
  {
    hide Prod, Dot, Mean, PairSum;
    var u, v, n := Centred(a), Centred(b), |a| as real;
    var d := sqrt(Prod(Dot(u, u), Dot(v, v)));
    Nonnegative(u, v);
    CentredPairs(a, b);
    CentredPairs(a, a);
    CentredPairs(b, b);
    ScaleBoth(n, Dot(u, u), Dot(v, v));
    RootCutoff(d, n, Prod(PairSum(a, a), PairSum(b, b)), 0.000001);
    if d >= 0.000001 {
      RatioFromPairs(Dot(u, v), d, n, PairSum(a, b), Prod(PairSum(a, a), PairSum(b, b)));
    }
  }

  // ---------------------------------------------------------------- what its value means

  /** The denominator passes the cutoff. */
  ghost predicate Past(a: seq<real>, b: seq<real>, sqrt: real -> real)
    requires |a| == |b| > 0
  {
    var u, v := Centred(a), Centred(b);
    sqrt(Prod(Dot(u, u), Dot(v, v))) >= 0.000001
  }

  /** `u` is `q` times `v`. */
  ghost predicate IsMultiple(u: seq<real>, q: real, v: seq<real>)
    requires |u| == |v|
  {
    forall i :: 0 <= i < |u| ==> u[i] == Prod(q, v[i])
  }

  lemma {:induction false} DotOfMultiple(u: seq<real>, q: real, v: seq<real>, w: seq<real>)
    requires |u| == |v| == |w| && IsMultiple(u, q, v)
    ensures Dot(u, w) == Prod(q, Dot(v, w)) && Dot(w, u) == Prod(q, Dot(w, v))
  {
    hide Prod;
    if u == [] {
      ZeroProduct(q);
    } else {
      var m := |u| - 1;
      DotOfMultiple(u[..m], q, v[..m], w[..m]);
      MultipleStep(q, Dot(v[..m], w[..m]), v[m], w[m]);
      MultipleStep(q, Dot(w[..m], v[..m]), v[m], w[m]);
    }
  }

  lemma {:induction false} MultipleStep(q: real, dot: real, x: real, y: real)
    ensures Prod(q, dot) + Prod(Prod(q, x), y) == Prod(q, dot + Prod(x, y))
    ensures Prod(q, dot) + Prod(y, Prod(q, x)) == Prod(q, dot + Prod(y, x))
  {
    assert q * (dot + x * y) == q * dot + q * (x * y);
    assert q * x * y == q * (x * y) && y * (q * x) == q * (y * x);
  }

  lemma {:induction false} PastFacts(a: seq<real>, b: seq<real>, sqrt: real -> real)
    requires |a| == |b| > 0 && IsSqrt(sqrt) && Past(a, b, sqrt)
    ensures var u, v, r := Centred(a), Centred(b), CrossCorrelation(a, b, sqrt);
            && Dot(u, u) > 0.0 && Dot(v, v) > 0.0
            && (r > 0.0 <==> Dot(u, v) > 0.0) && (r < 0.0 <==> Dot(u, v) < 0.0)
            && Prod(Prod(r, r), Prod(Dot(u, u), Dot(v, v))) == Prod(Dot(u, v), Dot(u, v))
  {
    hide Prod, Dot, Mean;
    var u, v := Centred(a), Centred(b);
    var d := sqrt(Prod(Dot(u, u), Dot(v, v)));
    Nonnegative(u, v);
    SquarePositive(d);
    ZeroProduct(Dot(v, v));
    assert Prod(Dot(u, u), Dot(v, v)) == Prod(Dot(v, v), Dot(u, u)) by {
      ProductsCommute(Dot(u, u), Dot(v, v));
    }
    QuotientBounds(Dot(u, v), d, 0.0);
    SquareOfQuotient(Dot(u, v), d);
  }

  lemma {:induction false} ProductsCommute(x: real, y: real)
    ensures Prod(x, y) == Prod(y, x)
  {
  }

  lemma {:induction false} SquareOfQuotient(n: real, d: real)
    requires d > 0.0
    ensures Prod(Prod(n / d, n / d), Prod(d, d)) == Prod(n, n)
  {
    var r := n / d;
    assert r * d == n;
    assert r * r * (d * d) == (r * d) * (r * d);
  }

  lemma {:induction false} ProportionalIsMultiple(u: seq<real>, v: seq<real>)
    requires |u| == |v| && Dot(v, v) > 0.0
    requires forall i :: 0 <= i < |u| ==> Dot(v, v) * u[i] == Dot(u, v) * v[i]
    ensures IsMultiple(u, Dot(u, v) / Dot(v, v), v)
  {
    hide Dot;
    forall i | 0 <= i < |u|
      ensures u[i] == Prod(Dot(u, v) / Dot(v, v), v[i])
    {
      DivideThrough(Dot(v, v), u[i], Dot(u, v), v[i]);
    }
  }

  lemma {:induction false} DivideThrough(b: real, x: real, n: real, y: real)
    requires b > 0.0 && b * x == n * y
    ensures x == Prod(n / b, y)
  {
    var q := n / b;
    assert q * b == n;
    assert b * (q * y) == n * y;
    if x < q * y {
      ProductStrict(x, q * y, b);
    } else if q * y < x {
      ProductStrict(q * y, x, b);
    }
  }

  lemma {:induction false} MultipleIsProportional(u: seq<real>, q: real, v: seq<real>)
    requires |u| == |v| && IsMultiple(u, q, v)
    ensures Dot(u, v) == Prod(q, Dot(v, v))
    ensures forall i :: 0 <= i < |u| ==> Dot(v, v) * u[i] == Dot(u, v) * v[i]
  {
    hide Dot;
    DotOfMultiple(u, q, v, v);
    forall i | 0 <= i < |u|
      ensures Dot(v, v) * u[i] == Dot(u, v) * v[i]
    {
      assert Dot(v, v) * (q * v[i]) == q * Dot(v, v) * v[i];
    }
  }

  lemma {:induction false} MultipleIsExtreme(a: seq<real>, b: seq<real>, sqrt: real -> real, q: real)
    requires |a| == |b| > 0 && IsSqrt(sqrt) && Past(a, b, sqrt) && IsMultiple(Centred(a), q, Centred(b))
    ensures q != 0.0 && CrossCorrelation(a, b, sqrt) == (if q > 0.0 then 1.0 else -1.0)
  {
    hide Dot, Prod, Mean, CrossCorrelation;
    var u, v := Centred(a), Centred(b);
    MultipleIsProportional(u, q, v);
    CorrelationExtremeWhen(a, b, sqrt);
    PastFacts(a, b, sqrt);
    SignOfProduct(Dot(v, v), q);
    ProductsCommute(q, Dot(v, v));
  }

  /** It is 1 exactly for positive multiples among the centred channels, and -1 for negative ones. */
  lemma {:induction false} CorrelationOneWhen(a: seq<real>, b: seq<real>, sqrt: real -> real)
    requires |a| == |b| > 0 && IsSqrt(sqrt)
    ensures var u, v, r := Centred(a), Centred(b), CrossCorrelation(a, b, sqrt);
            && (r == 1.0 <==> Past(a, b, sqrt) && exists q :: q > 0.0 && IsMultiple(u, q, v))
            && (r == -1.0 <==> Past(a, b, sqrt) && exists q :: q < 0.0 && IsMultiple(u, q, v))
  {
    hide Dot, Prod, Mean, IsMultiple;
    var u, v, r := Centred(a), Centred(b), CrossCorrelation(a, b, sqrt);
    CorrelationExtremeWhen(a, b, sqrt);
    if r == 1.0 || r == -1.0 {
      PastFacts(a, b, sqrt);
      ProportionalIsMultiple(u, v);
      QuotientBounds(Dot(u, v), Dot(v, v), 0.0);
    }
    forall q | Past(a, b, sqrt) && IsMultiple(u, q, v)
      ensures q != 0.0 && r == (if q > 0.0 then 1.0 else -1.0)
    {
      hide CrossCorrelation;
      MultipleIsExtreme(a, b, sqrt, q);
    }
  }

  /** The squared error of fitting `u` by `q` times `v`. */
  function FitError(u: seq<real>, v: seq<real>, q: real): real
    requires |u| == |v|
  {
    Dot(Mix(1.0, u, -q, v), Mix(1.0, u, -q, v))
  }

  lemma {:induction false} FitGap(a: real, n: real, b: real, q: real, k: real)
    requires b > 0.0 && Prod(k, b) == Prod(n, n)
    ensures QuadraticForm(1.0, -q, a, n, b) >= a - k
    ensures q == n / b ==> QuadraticForm(1.0, -q, a, n, b) == a - k
  {
    var gap := k - 2.0 * (q * n) + q * q * b;
    assert QuadraticForm(1.0, -q, a, n, b) == a - k + gap by {
      assert 1.0 * 1.0 * a == a && 2.0 * (1.0 * -q) * n == -(2.0 * (q * n)) && -q * -q * b == q * q * b;
    }
    var e := q * b - n;
    assert gap * b == e * e by {
      assert e * e == (q * b) * (q * b) - 2.0 * ((q * b) * n) + n * n;
      assert (q * q * b) * b == (q * b) * (q * b) && (2.0 * (q * n)) * b == 2.0 * ((q * b) * n);
    }
    SquareNotBelow(e);
    if gap < 0.0 {
      ProductStrict(gap, 0.0, b);
    }
    if q == n / b {
      assert e == 0.0;
      assert e * e == 0.0;
      if gap > 0.0 {
        ProductStrict(0.0, gap, b);
      }
    }
  }

  lemma {:induction false} SquareNotBelow(e: real)
    ensures e * e >= 0.0
  {
    var m := if e < 0.0 then -e else e;
    ProductNonNegative(m, m);
    assert m * m == e * e;
  }

  /** 1 - r^2 is the share of the centred first channel that no multiple of the second explains. */
  lemma {:induction false} CorrelationIsFit(a: seq<real>, b: seq<real>, sqrt: real -> real, q: real)
    requires |a| == |b| > 0 && IsSqrt(sqrt) && Past(a, b, sqrt)
    ensures var u, v, r := Centred(a), Centred(b), CrossCorrelation(a, b, sqrt);
            var left := Spread(a, Mean(a)) - Prod(Prod(r, r), Spread(a, Mean(a)));
            && Dot(v, v) != 0.0
            && FitError(u, v, q) >= left
            && (q == Dot(u, v) / Dot(v, v) ==> FitError(u, v, q) == left)
  {
    hide Dot, Prod, Mean, QuadraticForm, Mix, CrossCorrelation;
    var u, v, r := Centred(a), Centred(b), CrossCorrelation(a, b, sqrt);
    PastFacts(a, b, sqrt);
    DotOfMix(1.0, u, -q, v);
    Regroup(Prod(r, r), Dot(u, u), Dot(v, v));
    FitGap(Dot(u, u), Dot(u, v), Dot(v, v), q, Prod(Prod(r, r), Dot(u, u)));
  }

  lemma {:induction false} Regroup(x: real, y: real, z: real)
    ensures Prod(Prod(x, y), z) == Prod(x, Prod(y, z))
  {
    assert x * y * z == x * (y * z);
  }

  // ---------------------------------------------------------------- gain and offset

  /** Every sample times `p`, plus `q`. */
  function Affine(b: seq<real>, p: real, q: real): (t: seq<real>)
    ensures |t| == |b|
  {
    seq(|b|, i requires 0 <= i < |b| => Prod(p, b[i]) + q)
  }

  lemma {:induction false} SumOfAffine(b: seq<real>, p: real, q: real)
    ensures Sum(Affine(b, p, q)) == Prod(p, Sum(b)) + Prod(|b| as real, q)
  {
    hide Prod;
    if b == [] {
      ZeroProduct(p);
      ProductsCommute(0.0, q);
      ZeroProduct(q);
    } else {
      var m := |b| - 1;
      SumOfAffine(b[..m], p, q);
      assert Affine(b, p, q)[..m] == Affine(b[..m], p, q);
      AffineStep(p, Sum(b[..m]), b[m], m as real, q);
    }
  }

  lemma {:induction false} AffineStep(p: real, s: real, x: real, n: real, q: real)
    ensures Prod(p, s) + Prod(n, q) + (Prod(p, x) + q) == Prod(p, s + x) + Prod(n + 1.0, q)
  {
    assert p * (s + x) == p * s + p * x && (n + 1.0) * q == n * q + q;
  }

  lemma {:induction false} CentredAffine(b: seq<real>, p: real, q: real)
    requires b != []
    ensures IsMultiple(Centred(Affine(b, p, q)), p, Centred(b))
  {
    hide Sum, Prod;
    SumOfAffine(b, p, q);
    MeanOfAffine(Sum(b), p, q, |b| as real);
    forall i | 0 <= i < |b|
      ensures Centred(Affine(b, p, q))[i] == Prod(p, Centred(b)[i])
    {
      SpreadOut(p, b[i], Mean(b));
    }
  }

  lemma {:induction false} MeanOfAffine(s: real, p: real, q: real, n: real)
    requires n > 0.0
    ensures (Prod(p, s) + Prod(n, q)) / n == Prod(p, s / n) + q
  {
    var x := s / n;
    assert s == x * n;
    assert p * s + n * q == (p * x + q) * n;
  }

  lemma {:induction false} SpreadOut(p: real, x: real, m: real)
    ensures Prod(p, x - m) == Prod(p, x) - Prod(p, m)
  {
    assert p * (x - m) == p * x - p * m;
  }

  /** A gain and an offset on one channel change at most the sign: that of the gain decides. */
  lemma {:induction false} CorrelationOfAffine(a: seq<real>, b: seq<real>, p: real, q: real, sqrt: real -> real)
    requires |a| == |b| > 0 && IsSqrt(sqrt)
    requires Past(a, b, sqrt) && Past(a, Affine(b, p, q), sqrt)
    ensures p != 0.0
    ensures CrossCorrelation(a, Affine(b, p, q), sqrt)
            == (if p > 0.0 then CrossCorrelation(a, b, sqrt) else -CrossCorrelation(a, b, sqrt))
  {
    hide Dot, Prod, Mean, Affine;
    var t := Affine(b, p, q);
    var u, v, w := Centred(a), Centred(b), Centred(t);
    CentredAffine(b, p, q);
    DotOfMultiple(w, p, v, u);
    DotOfMultiple(w, p, v, w);
    DotOfMultiple(w, p, v, v);
    PastFacts(a, t, sqrt);
    PastFacts(a, b, sqrt);
    var d, e := sqrt(Prod(Dot(u, u), Dot(v, v))), sqrt(Prod(Dot(u, u), Dot(w, w)));
    Nonnegative(u, v);
    Nonnegative(u, w);
    GainOfRoot(Dot(u, u), Dot(v, v), p, d, e);
    GainOfRatio(Dot(u, v), d, p);
  }

  lemma {:induction false} GainOfRoot(a: real, b: real, p: real, d: real, e: real)
    requires d > 0.0 && e > 0.0
    requires Prod(d, d) == Prod(a, b) && Prod(e, e) == Prod(a, Prod(p, Prod(p, b)))
    ensures p != 0.0 && e == (if p > 0.0 then p * d else -p * d)
  {
    var m := if p < 0.0 then -p else p;
    assert e * e == (m * d) * (m * d) by {
      assert a * (p * (p * b)) == p * p * (a * b) && m * m == p * p;
      assert (m * d) * (m * d) == m * m * (d * d);
    }
    ProductNonNegative(m, d);
    SquareInjective(e, m * d);
  }

  lemma {:induction false} GainOfRatio(n: real, d: real, p: real)
    requires d > 0.0 && p != 0.0
    ensures p > 0.0 ==> p * d != 0.0 && Prod(p, n) / (p * d) == n / d
    ensures p < 0.0 ==> -p * d != 0.0 && Prod(p, n) / (-p * d) == -(n / d)
  {
    var r := n / d;
    assert n == r * d;
    if p > 0.0 {
      ProductStrict(0.0, p, d);
      assert p * n == r * (p * d);
    } else {
      ProductStrict(0.0, -p, d);
      assert p * n == -r * (-p * d);
    }
  }
}

/**
 * `calculate_spectral_flatness` (core/deepfake_detector.cpp:71-83) and the inequality of the
 * means behind its range.
 */
module Flatness {
  import opened RealFacts
  import opened Sums

  function RealPow(x: real, k: nat): real {
    if k == 0 then 1.0 else Prod(x, RealPow(x, k - 1))
  }

  /** What is used of `std::pow(x, 1.0f / n)`: it is the positive n-th root. */
  ghost predicate IsRoot(root: (real, nat) -> real) {
    forall x: real, n: nat :: x > 0.0 && n > 0 ==> root(x, n) > 0.0 && RealPow(root(x, n), n) == x
  }

  function Magnitude(x: real): real {
    if x < 0.0 then -x else x
  }

  /** Product of the n-th roots of |s[i]| + 1e-10. */
  function GeometricMean(s: seq<real>, n: nat, root: (real, nat) -> real): real {
    if s == [] then 1.0
    else Prod(GeometricMean(s[..|s| - 1], n, root),
              root(Magnitude(s[|s| - 1]) + 0.0000000001, n))
  }

  /** Sum of |s[i]| / n. */
  function ArithmeticMean(s: seq<real>, n: nat): real
    requires n > 0
  {
    if s == [] then 0.0
    else ArithmeticMean(s[..|s| - 1], n) + Magnitude(s[|s| - 1]) / n as real
  }

  function SpectralFlatness(s: seq<real>, root: (real, nat) -> real): real {
    if s == [] || ArithmeticMean(s, |s|) < 0.000001 then 1.0
    else GeometricMean(s, |s|, root) / ArithmeticMean(s, |s|)
  }

  method CalculateSpectralFlatness(samples: array<real>, root: (real, nat) -> real)
    returns (flatness: real)
    ensures flatness == SpectralFlatness(samples[..], root)
  {
    hide Prod, Magnitude;
    var n := samples.Length;
    ghost var s := samples[..];
    var geometricMean, arithmeticMean := 1.0, 0.0;
    for i := 0 to n
      invariant geometricMean == GeometricMean(s[..i], n, root)
      invariant n > 0 ==> arithmeticMean == ArithmeticMean(s[..i], n)
      invariant n == 0 ==> arithmeticMean == 0.0
    {
      assert s[..i + 1][..i] == s[..i];
      var absVal := Magnitude(samples[i]);
      geometricMean := Prod(geometricMean, root(absVal + 0.0000000001, n));
      arithmeticMean := arithmeticMean + absVal / n as real;
    }
    assert s[..n] == s;
    if arithmeticMean < 0.000001 {
      return 1.0;
    }
    return geometricMean / arithmeticMean;
  }

  // ---------------------------------------------------------------- powers

  lemma {:induction false} RealPowPositive(x: real, k: nat)
    requires x >= 0.0
    ensures RealPow(x, k) >= 0.0
    ensures x > 0.0 ==> RealPow(x, k) > 0.0
  {
    hide Prod;
    if k > 0 {
      RealPowPositive(x, k - 1);
      ProdSign(x, RealPow(x, k - 1));
    }
  }

  lemma {:induction false} ProdSign(x: real, y: real)
    requires x >= 0.0 && y >= 0.0
    ensures Prod(x, y) >= 0.0
    ensures x > 0.0 && y > 0.0 ==> Prod(x, y) > 0.0
  {
    ProductNonNegative(x, y);
    if x > 0.0 && y > 0.0 {
      SameSigns(x, y);
    }
  }

  lemma {:induction false} ProdMonotone(a: real, b: real, c: real, d: real)
    requires 0.0 <= a <= b && 0.0 <= c <= d
    ensures Prod(a, c) <= Prod(b, d)
    ensures a < b && d > 0.0 ==> Prod(a, c) < Prod(b, d)
  {
    ProductMonotone(a, b, d);
    ProductMonotone(c, d, a);
    assert c * a == a * c && d * a == a * d;
    if a < b && d > 0.0 {
      ProductStrict(a, b, d);
    }
  }

  lemma {:induction false} RealPowStrict(a: real, b: real, k: nat)
    requires 0.0 <= a < b
    ensures RealPow(a, k) <= RealPow(b, k)
    ensures k > 0 ==> RealPow(a, k) < RealPow(b, k)
  {
    hide Prod;
    if k > 0 {
      RealPowStrict(a, b, k - 1);
      RealPowPositive(a, k - 1);
      RealPowPositive(b, k - 1);
      ProdMonotone(a, b, RealPow(a, k - 1), RealPow(b, k - 1));
    }
  }

  lemma {:induction false} RealPowOfProduct(x: real, y: real, k: nat)
    ensures RealPow(Prod(x, y), k) == Prod(RealPow(x, k), RealPow(y, k))
  {
    hide Prod;
    if k == 0 {
      ProdOne();
    } else {
      RealPowOfProduct(x, y, k - 1);
      ProdSwap(x, y, RealPow(x, k - 1), RealPow(y, k - 1));
    }
  }

  lemma {:induction false} ProdOne()
    ensures Prod(1.0, 1.0) == 1.0
  {
  }

  lemma {:induction false} ProdSwap(a: real, b: real, c: real, d: real)
    ensures Prod(Prod(a, b), Prod(c, d)) == Prod(Prod(a, c), Prod(b, d))
  {
    assert a * b * (c * d) == a * c * (b * d);
  }

  // ---------------------------------------------------------------- the means

  function Line(a: real, b: real, m: real): real {
    a + m * (b - a)
  }

  /** The tangent of x^m at `a` lies below the curve. */
  lemma {:induction false} Tangent(a: real, b: real, m: nat)
    requires a >= 0.0 && b >= 0.0 && m > 0
    ensures RealPow(b, m) >= Prod(RealPow(a, m - 1), Line(a, b, m as real))
  {
    hide Prod, Line;
    if m == 1 {
      TangentBase(a, b);
      assert RealPow(b, 1) == Prod(b, RealPow(b, 0));
    } else {
      var p, q := RealPow(b, m - 1), RealPow(a, m - 2);
      Tangent(a, b, m - 1);
      RealPowPositive(a, m - 2);
      TangentStep(a, b, (m - 1) as real, p, q);
      assert (m - 1) as real + 1.0 == m as real;
    }
  }

  lemma {:induction false} TangentBase(a: real, b: real)
    ensures Prod(b, 1.0) >= Prod(1.0, Line(a, b, 1.0))
  {
  }

  lemma {:induction false} TangentStep(a: real, b: real, m: real, p: real, q: real)
    requires a >= 0.0 && b >= 0.0 && m >= 0.0 && q >= 0.0
    requires p >= Prod(q, Line(a, b, m))
    ensures Prod(b, p) >= Prod(Prod(a, q), Line(a, b, m + 1.0))
  {
    var t, u := Line(a, b, m), Line(a, b, m + 1.0);
    ProductMonotone(q * t, p, b);
    TangentGap(a, b, m);
    ProductMonotone(a * u, b * t, q);
    assert q * t * b == b * t * q && a * q * u == a * u * q;
  }

  lemma {:induction false} TangentGap(a: real, b: real, m: real)
    requires m >= 0.0
    ensures b * Line(a, b, m) >= a * Line(a, b, m + 1.0)
  {
    var d := b - a;
    SquareNonNegative(d);
    ProductNonNegative(m, Prod(d, d));
    assert b * Line(a, b, m) - a * Line(a, b, m + 1.0) == m * (d * d);
  }

  /** Away from the point of contact, from the square on, it lies strictly below. */
  lemma {:induction false} TangentStrict(a: real, b: real, m: nat)
    requires a > 0.0 && b >= 0.0 && a != b && m > 1
    ensures RealPow(b, m) > Prod(RealPow(a, m - 1), Line(a, b, m as real))
  {
    hide Prod, Line;
    var p, q := RealPow(b, m - 1), RealPow(a, m - 2);
    Tangent(a, b, m - 1);
    RealPowPositive(a, m - 2);
    TangentStepStrict(a, b, (m - 1) as real, p, q);
    assert (m - 1) as real + 1.0 == m as real;
  }

  lemma {:induction false} TangentStepStrict(a: real, b: real, m: real, p: real, q: real)
    requires b >= 0.0 && a != b && m > 0.0 && q > 0.0
    requires p >= Prod(q, Line(a, b, m))
    ensures Prod(b, p) > Prod(Prod(a, q), Line(a, b, m + 1.0))
  {
    var t, u := Line(a, b, m), Line(a, b, m + 1.0);
    ProductMonotone(q * t, p, b);
    TangentGapStrict(a, b, m);
    ProductStrict(a * u, b * t, q);
    assert q * t * b == b * t * q && a * q * u == a * u * q;
  }

  lemma {:induction false} TangentGapStrict(a: real, b: real, m: real)
    requires m > 0.0 && a != b
    ensures b * Line(a, b, m) > a * Line(a, b, m + 1.0)
  {
    var d := b - a;
    SquarePositive(d);
    SameSigns(m, Prod(d, d));
    assert b * Line(a, b, m) - a * Line(a, b, m + 1.0) == m * (d * d);
  }

  lemma {:induction false} SquareNonNegative(x: real)
    ensures Prod(x, x) >= 0.0
  {
    if x != 0.0 {
      SquarePositive(x);
    } else {
      ZeroProduct(x);
    }
  }

  function Product(y: seq<real>): real {
    if y == [] then 1.0 else Prod(Product(y[..|y| - 1]), y[|y| - 1])
  }

  ghost predicate AllPositive(y: seq<real>) {
    forall i :: 0 <= i < |y| ==> y[i] > 0.0
  }

  /** The inequality of arithmetic and geometric means, for every number of values. */
  lemma {:induction false} MeansInequality(y: seq<real>)
    requires y != [] && AllPositive(y)
    ensures Product(y) <= RealPow(Mean(y), |y|)
    ensures Mean(y) > 0.0
  {
    hide Prod;
    var n, front, x := |y|, y[..|y| - 1], y[|y| - 1];
    if n == 1 {
      SingleMean(y);
    } else {
      MeansInequality(front);
      var a, b := Mean(front), Mean(y);
      MeanStep(Sum(front), x, n as real);
      Tangent(a, b, n);
      RealPowPositive(a, n - 1);
      assert Line(a, b, n as real) == x;
      ProductPositive(front);
      ProdMonotone(Product(front), RealPow(a, n - 1), x, x);
    }
  }

  ghost predicate AllAre(y: seq<real>, c: real) {
    forall i :: 0 <= i < |y| ==> y[i] == c
  }

  lemma {:induction false} ConstantProduct(y: seq<real>, c: real)
    requires AllAre(y, c)
    ensures Product(y) == RealPow(c, |y|)
    ensures Sum(y) == |y| as real * c
  {
    hide Prod;
    if y != [] {
      ConstantProduct(y[..|y| - 1], c);
      ProdCommutes(RealPow(c, |y| - 1), c);
    }
  }

  lemma {:induction false} ConstantMean(y: seq<real>, c: real)
    requires y != [] && AllAre(y, c)
    ensures Mean(y) == c && Product(y) == RealPow(c, |y|)
  {
    hide Prod, Product, Sum;
    ConstantProduct(y, c);
    CancelQuotient(|y| as real, c);
  }

  lemma {:induction false} LineLeaves(a: real, b: real, n: real)
    requires Line(a, b, n) != a
    ensures a != b
  {
  }

  /** The product stays strictly below as soon as two values differ. */
  lemma {:induction false} MeansStrict(y: seq<real>)
    requires y != [] && AllPositive(y) && !AllAre(y, y[0])
    ensures Product(y) < RealPow(Mean(y), |y|)
  {
    hide Prod, Line, Mean, RealPow, Sum, Product;
    var n, front, x := |y|, y[..|y| - 1], y[|y| - 1];
    var a, b := Mean(front), Mean(y);
    MeansInequality(front);
    MeansInequality(y);
    MeanSplit(y);
    ProductSplit(y);
    ProductPositive(front);
    RealPowPositive(a, n - 1);
    Tangent(a, b, n);
    ProdMonotone(Product(front), RealPow(a, n - 1), x, x);
    if AllAre(front, y[0]) {
      ConstantMean(front, y[0]);
      LineLeaves(a, b, n as real);
      TangentStrict(a, b, n);
    } else {
      MeansStrict(front);
    }
  }

  lemma {:induction false} ProductSplit(y: seq<real>)
    requires y != []
    ensures Product(y) == Prod(Product(y[..|y| - 1]), y[|y| - 1])
  {
  }

  /** The last value lies on the line through the two means. */
  lemma {:induction false} MeanSplit(y: seq<real>)
    requires |y| > 1 && AllPositive(y)
    ensures Line(Mean(y[..|y| - 1]), Mean(y), |y| as real) == y[|y| - 1]
  {
    hide Line;
    MeansInequality(y[..|y| - 1]);
    MeanStep(Sum(y[..|y| - 1]), y[|y| - 1], |y| as real);
  }

  /** Equality of the means: exactly for equal values. */
  lemma {:induction false} MeansEqualWhen(y: seq<real>)
    requires y != [] && AllPositive(y)
    ensures Product(y) == RealPow(Mean(y), |y|) <==> forall i :: 0 <= i < |y| ==> y[i] == y[0]
  {
    hide Product, RealPow, Mean;
    if AllAre(y, y[0]) {
      ConstantMean(y, y[0]);
    } else {
      MeansStrict(y);
    }
  }

  lemma {:induction false} SingleMean(y: seq<real>)
    requires |y| == 1 && y[0] > 0.0
    ensures Product(y) == RealPow(Mean(y), 1) && Mean(y) == y[0]
  {
    assert Product(y[..0]) == 1.0 && Sum(y[..0]) == 0.0;
    assert RealPow(y[0], 1) == Prod(y[0], RealPow(y[0], 0));
  }

  lemma {:induction false} ProductPositive(y: seq<real>)
    requires AllPositive(y)
    ensures Product(y) > 0.0
  {
    hide Prod;
    if y != [] {
      ProductPositive(y[..|y| - 1]);
      SameSigns(Product(y[..|y| - 1]), y[|y| - 1]);
    }
  }

  lemma {:induction false} MeanStep(t: real, x: real, n: real)
    requires n > 1.0 && t / (n - 1.0) > 0.0 && x > 0.0
    ensures var a, b := t / (n - 1.0), (t + x) / n;
            b > 0.0 && Line(a, b, n) == x
  {
    var a, b := t / (n - 1.0), (t + x) / n;
    assert a * (n - 1.0) == t && b * n == t + x;
    ProductStrict(0.0, a, n - 1.0);
    QuotientBounds(t + x, n, 0.0);
    if b <= 0.0 {
      ProductMonotone(b, 0.0, n);
    }
  }

  // ---------------------------------------------------------------- the range of the flatness

  /** |s[i]| + 1e-10 for every sample. */
  function Lifted(s: seq<real>): (y: seq<real>)
    ensures |y| == |s|
  {
    seq(|s|, i requires 0 <= i < |s| => Magnitude(s[i]) + 0.0000000001)
  }

  lemma {:induction false} GeometricPower(s: seq<real>, n: nat, root: (real, nat) -> real)
    requires IsRoot(root) && n > 0
    ensures GeometricMean(s, n, root) > 0.0
    ensures RealPow(GeometricMean(s, n, root), n) == Product(Lifted(s))
  {
    hide Prod;
    if s == [] {
      RealPowOfOne(n);
    } else {
      var front, x := s[..|s| - 1], Magnitude(s[|s| - 1]) + 0.0000000001;
      GeometricPower(front, n, root);
      assert Lifted(s)[..|s| - 1] == Lifted(front) && Lifted(s)[|s| - 1] == x > 0.0;
      SameSigns(GeometricMean(front, n, root), root(x, n));
      RealPowOfProduct(GeometricMean(front, n, root), root(x, n), n);
    }
  }

  lemma {:induction false} RealPowOfOne(n: nat)
    ensures RealPow(1.0, n) == 1.0
  {
    if n > 0 {
      RealPowOfOne(n - 1);
    }
  }

  lemma {:induction false} LiftedSum(s: seq<real>, n: nat)
    requires n > 0
    ensures Sum(Lifted(s)) / n as real
            == ArithmeticMean(s, n) + |s| as real * 0.0000000001 / n as real
    ensures ArithmeticMean(s, n) >= 0.0
  {
    if s != [] {
      var front, x := s[..|s| - 1], Magnitude(s[|s| - 1]);
      LiftedSum(front, n);
      assert Lifted(s)[..|s| - 1] == Lifted(front);
      QuotientBounds(x, n as real, 0.0);
      AddQuotients(Sum(Lifted(front)), x, |front| as real * 0.0000000001, n as real);
    }
  }

  lemma {:induction false} AddQuotients(t: real, x: real, e: real, n: real)
    requires n > 0.0
    ensures (t + (x + 0.0000000001)) / n == t / n + x / n + 0.0000000001 / n
    ensures (e + 0.0000000001) / n == e / n + 0.0000000001 / n
  {
  }

  function Magnitudes(s: seq<real>): (m: seq<real>)
    ensures |m| == |s|
  {
    seq(|s|, i requires 0 <= i < |s| => Magnitude(s[i]))
  }

  lemma {:induction false} ArithmeticIsMean(s: seq<real>, n: nat)
    requires n > 0
    ensures ArithmeticMean(s, n) == Sum(Magnitudes(s)) / n as real
  {
    hide Magnitude;
    if s != [] {
      ArithmeticIsMean(s[..|s| - 1], n);
      assert Magnitudes(s)[..|s| - 1] == Magnitudes(s[..|s| - 1]);
    }
  }

  /**
   * The flatness from the samples: 1 if their mean magnitude is below 1e-6 (or there are none), and
   * otherwise the positive number whose product with it, to the power n, is the product of the
   * |s[i]| + 1e-10.
   */
  lemma {:induction false} FlatnessFromMagnitudes(s: seq<real>, root: (real, nat) -> real)
    requires IsRoot(root)
    ensures var f := SpectralFlatness(s, root);
            if s == [] || Mean(Magnitudes(s)) < 0.000001 then f == 1.0
            else f > 0.0 && RealPow(Prod(f, Mean(Magnitudes(s))), |s|) == Product(Lifted(s))
  {
    hide IsRoot, Prod, Magnitudes, GeometricMean, ArithmeticMean, Sum, RealPow, Product;
    if s != [] {
      ArithmeticIsMean(s, |s|);
      GeometricPower(s, |s|, root);
      if Mean(Magnitudes(s)) >= 0.000001 {
        TimesQuotient(GeometricMean(s, |s|, root), Mean(Magnitudes(s)));
        QuotientPositive(GeometricMean(s, |s|, root), Mean(Magnitudes(s)));
      }
    }
  }

  lemma {:induction false} TimesQuotient(g: real, a: real)
    requires a > 0.0
    ensures Prod(g / a, a) == g
  {
  }

  /** The geometric mean of the lifted magnitudes is at most the arithmetic mean plus 1e-10. */
  lemma {:induction false} MeansOfSamples(s: seq<real>, root: (real, nat) -> real)
    requires IsRoot(root) && s != []
    ensures 0.0 < GeometricMean(s, |s|, root) <= ArithmeticMean(s, |s|) + 0.0000000001
  {
    hide Prod, IsRoot;
    var n, y, g := |s|, Lifted(s), GeometricMean(s, |s|, root);
    GeometricPower(s, n, root);
    MeansInequality(y);
    LiftedMean(s);
    if Mean(y) < g {
      RealPowStrict(Mean(y), g, n);
    }
  }

  lemma {:induction false} CancelQuotient(n: real, e: real)
    requires n > 0.0
    ensures n * e / n == e
  {
  }

  /** Spectral flatness lies in (0, 1.0001] for every sample array, the empty one included. */
  lemma {:induction false} FlatnessInRange(s: seq<real>, root: (real, nat) -> real)
    requires IsRoot(root)
    ensures 0.0 < SpectralFlatness(s, root) <= 1.0001
  {
    hide IsRoot;
    if s != [] {
      var g, a := GeometricMean(s, |s|, root), ArithmeticMean(s, |s|);
      MeansOfSamples(s, root);
      if a >= 0.000001 {
        FlatnessRatio(g, a);
      }
    }
  }

  lemma {:induction false} FlatnessRatio(g: real, a: real)
    requires a >= 0.000001 && 0.0 < g <= a + 0.0000000001
    ensures 0.0 < g / a <= 1.0001
  {
    QuotientBounds(g, a, 1.0001);
    QuotientBounds(g, a, 0.0);
    QuotientPositive(g, a);
  }

  lemma {:induction false} QuotientPositive(g: real, a: real)
    requires g > 0.0 && a > 0.0
    ensures g / a > 0.0
  {
  }

  ghost predicate MagnitudesAre(s: seq<real>, c: real) {
    forall i :: 0 <= i < |s| ==> Magnitude(s[i]) == c
  }

  /** Samples of constant magnitude 1e-6 attain the bound, at every length. */
  lemma {:induction false} FlatnessBoundAttained(s: seq<real>, root: (real, nat) -> real)
    requires IsRoot(root) && s != [] && MagnitudesAre(s, 0.000001)
    ensures SpectralFlatness(s, root) == 1.0001
  {
    hide Prod, Magnitude, MagnitudesAre;
    ConstantMeans(s, |s|, 0.000001, root);
    WholeShare(|s| as real, 0.000001);
    assert 0.0000010001 / 0.000001 == 1.0001;
  }

  lemma {:induction false} ConstantMeans(s: seq<real>, n: nat, c: real, root: (real, nat) -> real)
    requires n > 0 && MagnitudesAre(s, c)
    ensures GeometricMean(s, n, root) == RealPow(root(c + 0.0000000001, n), |s|)
    ensures ArithmeticMean(s, n) == Prod(|s| as real, c / n as real)
  {
    hide Prod, Magnitude;
    var share := c / n as real;
    if s == [] {
      NoShare(share);
    } else {
      var front := s[..|s| - 1];
      ConstantMeans(front, n, c, root);
      ProdCommutes(RealPow(root(c + 0.0000000001, n), |front|), root(c + 0.0000000001, n));
      OneMoreShare(|front| as real, share);
    }
  }

  /** Where the flatness is 1.0001, the mean magnitude is 1e-6 and the two means agree. */
  lemma {:induction false} BoundForcesMeans(g: real, a: real)
    requires a >= 0.000001 && g <= a + 0.0000000001 && g / a == 1.0001
    ensures a == 0.000001 && g == a + 0.0000000001
  {
    assert g == 1.0001 * a;
  }

  lemma {:induction false} LiftedMean(s: seq<real>)
    requires s != []
    ensures Mean(Lifted(s)) == ArithmeticMean(s, |s|) + 0.0000000001
    ensures AllPositive(Lifted(s)) && ArithmeticMean(s, |s|) >= 0.0
  {
    hide Sum, ArithmeticMean;
    LiftedSum(s, |s|);
    CancelQuotient(|s| as real, 0.0000000001);
  }

  /** If the two means of the lifted magnitudes agree, all magnitudes are the same. */
  lemma {:induction false} EqualMeansForceConstant(s: seq<real>, root: (real, nat) -> real)
    requires IsRoot(root) && s != []
    requires GeometricMean(s, |s|, root) == ArithmeticMean(s, |s|) + 0.0000000001
    ensures MagnitudesAre(s, ArithmeticMean(s, |s|))
  {
    hide Prod, IsRoot, RealPow, Product, Mean, ArithmeticMean, GeometricMean;
    var n, y := |s|, Lifted(s);
    GeometricPower(s, n, root);
    LiftedMean(s);
    MeansEqualWhen(y);
    forall i | 0 <= i < n
      ensures Magnitude(s[i]) == Magnitude(s[0])
    {
      assert y[i] == y[0];
    }
    ConstantMeans(s, n, Magnitude(s[0]), root);
    WholeShare(n as real, Magnitude(s[0]));
  }

  /** The bound 1.0001 is attained by samples of constant magnitude 1e-6, and by no others. */
  lemma {:induction false} FlatnessExtremeWhen(s: seq<real>, root: (real, nat) -> real)
    requires IsRoot(root)
    ensures SpectralFlatness(s, root) == 1.0001
            <==> s != [] && forall i :: 0 <= i < |s| ==> Magnitude(s[i]) == 0.000001
  {
    hide IsRoot, ArithmeticMean, GeometricMean, Magnitude;
    if s != [] && MagnitudesAre(s, 0.000001) {
      FlatnessBoundAttained(s, root);
    }
    if SpectralFlatness(s, root) == 1.0001 {
      var g, a := GeometricMean(s, |s|, root), ArithmeticMean(s, |s|);
      MeansOfSamples(s, root);
      BoundForcesMeans(g, a);
      EqualMeansForceConstant(s, root);
    }
  }

  lemma {:induction false} ProdCommutes(x: real, y: real)
    ensures Prod(x, y) == Prod(y, x)
  {
  }

  lemma {:induction false} NoShare(share: real)
    ensures Prod(0.0, share) == 0.0
  {
  }

  lemma {:induction false} OneMoreShare(k: real, share: real)
    ensures Prod(k, share) + share == Prod(k + 1.0, share)
  {
  }

  lemma {:induction false} WholeShare(n: real, c: real)
    requires n > 0.0
    ensures Prod(n, c / n) == c
  {
  }
}

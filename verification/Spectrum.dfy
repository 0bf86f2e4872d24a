/**
 * The two features read off the lower half of a spectrum: `get_dominant_frequency` and
 * `get_spectral_centroid` (core/frequency_analyzer.cpp:40-83).
 */
module Spectrum {
  import opened ComplexNumbers
  import opened Powers
  import opened RealFacts
  import opened Fft
  import opened FftInverse
  import opened Sums

  function RealSignal(s: seq<real>): (x: Signal)
    ensures |x| == |s|
  {
    seq(|s|, i requires 0 <= i < |s| => Complex(s[i], 0.0))
  }

  /** What is used of `std::abs`: it is the non-negative root of the squared modulus. */
  ghost predicate IsAbs(abs: Complex -> real) {
    forall z :: abs(z) >= 0.0 && abs(z) * abs(z) == z.Norm2()
  }

  // ---------------------------------------------------------------- mirrored bins

  lemma {:induction false} EvalConj(x: Signal, z: Complex)
    requires forall i :: 0 <= i < |x| ==> x[i].im == 0.0
    ensures Eval(x, z.Conj()) == Eval(x, z).Conj()
  {
    hide Complex.Times;
    if x != [] {
      EvalConj(x[1..], z);
      ConjTimes(z, Eval(x[1..], z));
    }
  }

  lemma {:induction false} PowMirror(w: Complex, k: nat, i: nat)
    requires HalfTurn(w, k) && w.Norm2() == 1.0 && 0 < i < Pow2(k)
    ensures Pow(w, Pow2(k) - i) == Pow(w, i).Conj()
  {
    hide Complex.Times, Complex.Norm2;
    var h, a, b, c := Pow2(k - 1), Pow(w, Pow2(k) - i), Pow(w, i), Pow(w.Conj(), i);
    ConjPow(w, i);
    TimesConj(w);
    PowOfProduct(w, w.Conj(), i);
    PowOne(i);
    assert b.Times(c) == ONE;
    PowAdd(w, Pow2(k) - i, i);
    PowAdd(w, h, h);
    MinusOneSquared();
    assert a.Times(b) == ONE;
    TimesAssoc(a, b, c);
    TimesOne(a);
    TimesOne(c);
  }

  /** The spectrum of a real signal is mirrored: bins i and n - i are conjugate. */
  lemma {:induction false} MirroredBins(s: seq<real>, tw: nat -> Complex, k: nat, i: nat)
    requires |s| == Pow2(k) && Twiddles(tw, k) && 0 < i < |s|
    ensures var y := Transform(RealSignal(s), tw, false);
            y[|s| - i] == y[i].Conj()
  {
    hide Transform, Complex.Times, Complex.Norm2, Twiddles, Eval, Pow, HalfTurn, Dft;
    var x, w := RealSignal(s), tw(|s|);
    ForwardIsDft(x, tw, k);
    TwiddlesHalfTurn(tw, k);
    DftBin(x, w, i);
    DftBin(x, w, |s| - i);
    PowMirror(w, k, i);
    EvalConj(x, Pow(w, i));
  }

  lemma {:induction false} AbsConj(abs: Complex -> real, z: Complex)
    requires IsAbs(abs)
    ensures abs(z.Conj()) == abs(z)
  {
    ConjNorm2(z);
    SquareInjective(abs(z), abs(z.Conj()));
  }

  // ---------------------------------------------------------------- dominant frequency

  /** The level to beat: that of bin `i`, where 0 stands for "no bin found". */
  function Level(y: Signal, abs: Complex -> real, i: nat): real
    requires i < |y|
  {
    if i == 0 then 0.0 else abs(y[i])
  }

  /** `i` is the first bin of greatest magnitude in 1..m-1, or 0 when all of those are zero. */
  ghost predicate FirstPeak(y: Signal, abs: Complex -> real, m: nat, i: nat)
    requires m <= |y|
  {
    && (i == 0 || (i < m && abs(y[i]) > 0.0))
    && i < |y|
    && (forall j :: 0 < j < m ==> abs(y[j]) <= Level(y, abs, i))
    && (forall j :: 0 < j < i ==> abs(y[j]) < abs(y[i]))
  }

  method GetDominantFrequency(samples: array<real>, tw: nat -> Complex, abs: Complex -> real)
    returns (f: real, ghost bin: nat)
    requires samples.Length > 0
    ensures FirstPeak(Transform(RealSignal(samples[..]), tw, false), abs, samples.Length / 2, bin)
    ensures f == bin as real / samples.Length as real
    ensures 0.0 <= f < 0.5
  {
    hide Transform;
    var n := samples.Length;
    var data := new Complex[n](i requires 0 <= i < n reads samples => Complex(samples[i], 0.0));
    assert data[..] == RealSignal(samples[..]);
    SimpleFft(data, tw, false);
    ghost var y := data[..];

    var maxMagnitude := 0.0;
    var maxIndex := 0;
    var i := 1;
    while i < n / 2
      invariant i == 1 || i <= n / 2
      invariant data[..] == y
      invariant FirstPeak(y, abs, i, maxIndex)
      invariant maxMagnitude == Level(y, abs, maxIndex)
    {
      var magnitude := abs(data[i]);
      assert data[i] == y[i];
      if magnitude > maxMagnitude {
        maxMagnitude := magnitude;
        maxIndex := i;
      }
      i := i + 1;
    }
    bin := maxIndex;
    f := maxIndex as real / n as real;
    FractionBelowHalf(maxIndex, n);
  }

  lemma {:induction false} FractionBelowHalf(i: nat, n: nat)
    requires 2 * i < n
    ensures 0.0 <= i as real / n as real <= 0.5 - 0.5 / n as real < 0.5
  {
    var m := n as real;
    QuotientBounds(i as real, m, 0.5);
    QuotientBounds(i as real, m, 0.0);
    QuotientBounds(i as real + 0.5, m, 0.5);
    QuotientSum(i as real, 0.5, m);
    QuotientBounds(0.5, m, 0.0);
  }

  lemma {:induction false} QuotientSum(a: real, b: real, m: real)
    requires m > 0.0
    ensures a / m + b / m == (a + b) / m
  {
  }

  /** For real input the scanned half decides for the whole spectrum but bins 0 and n/2. */
  lemma {:induction false} PeakOfWholeSpectrum(s: seq<real>, tw: nat -> Complex, abs: Complex -> real, k: nat, i: nat)
    requires |s| == Pow2(k) && Twiddles(tw, k) && IsAbs(abs)
    requires FirstPeak(Transform(RealSignal(s), tw, false), abs, |s| / 2, i)
    ensures var y := Transform(RealSignal(s), tw, false);
            && (forall j :: 0 < j < |s| && 2 * j != |s| ==> abs(y[j]) <= Level(y, abs, i))
            && (i == 0 <==> forall j :: 0 < j < |s| && 2 * j != |s| ==> abs(y[j]) == 0.0)
  {
    hide Transform, Twiddles;
    var y := Transform(RealSignal(s), tw, false);
    forall j | 0 < j < |s| && 2 * j != |s|
      ensures 0.0 <= abs(y[j]) <= Level(y, abs, i)
    {
      MirroredBins(s, tw, k, j);
      AbsConj(abs, y[j]);
      var m := if 2 * j < |s| then j else |s| - j;
      assert abs(y[m]) <= Level(y, abs, i);
    }
  }

  // ---------------------------------------------------------------- spectral centroid

  /** Sum of the magnitudes of the first `m` bins, each weighted by its frequency i / n. */
  function WeightedSum(y: Signal, abs: Complex -> real, m: nat): real
    requires m <= |y|
  {
    if m == 0 then 0.0
    else WeightedSum(y, abs, m - 1) + (m - 1) as real / |y| as real * abs(y[m - 1])
  }

  function MagnitudeSum(y: Signal, abs: Complex -> real, m: nat): real
    requires m <= |y|
  {
    if m == 0 then 0.0 else MagnitudeSum(y, abs, m - 1) + abs(y[m - 1])
  }

  /** The centroid of the lower half: the frequency where its magnitudes balance. */
  function Centroid(y: Signal, abs: Complex -> real): (c: real) {
    var m := |y| / 2;
    if MagnitudeSum(y, abs, m) < 0.000001 then 0.0
    else WeightedSum(y, abs, m) / MagnitudeSum(y, abs, m)
  }

  method GetSpectralCentroid(samples: array<real>, tw: nat -> Complex, abs: Complex -> real)
    returns (c: real)
    ensures c == Centroid(Transform(RealSignal(samples[..]), tw, false), abs)
  {
    hide Transform;
    var n := samples.Length;
    var data := new Complex[n](i requires 0 <= i < n reads samples => Complex(samples[i], 0.0));
    assert data[..] == RealSignal(samples[..]);
    SimpleFft(data, tw, false);
    ghost var y := data[..];

    var numerator, denominator := 0.0, 0.0;
    for i := 0 to n / 2
      invariant data[..] == y
      invariant numerator == WeightedSum(y, abs, i) && denominator == MagnitudeSum(y, abs, i)
    {
      assert data[i] == y[i];
      var magnitude := abs(data[i]);
      var freq := i as real / n as real;
      numerator := numerator + freq * magnitude;
      denominator := denominator + magnitude;
    }
    if denominator < 0.000001 {
      return 0.0;
    }
    return numerator / denominator;
  }

  lemma {:induction false} WeightedSumBounds(y: Signal, abs: Complex -> real, m: nat)
    requires (forall z :: abs(z) >= 0.0) && 2 * m <= |y|
    ensures 0.0 <= WeightedSum(y, abs, m)
    ensures m > 0 ==> WeightedSum(y, abs, m) <= (m - 1) as real / |y| as real * MagnitudeSum(y, abs, m)
    ensures MagnitudeSum(y, abs, m) >= 0.0
  {
    if m > 0 {
      WeightedSumBounds(y, abs, m - 1);
      FrequenciesRise(m, |y|);
      WeightedStep(WeightedSum(y, abs, m - 1), (if m > 1 then m - 2 else 0) as real / |y| as real,
                   (m - 1) as real / |y| as real, MagnitudeSum(y, abs, m - 1), abs(y[m - 1]));
    }
  }

  lemma {:induction false} FrequenciesRise(m: nat, n: nat)
    requires 0 < m && 0 < n
    ensures 0.0 <= (if m > 1 then m - 2 else 0) as real / n as real <= (m - 1) as real / n as real
  {
    var q := (m - 1) as real / n as real;
    QuotientBounds((m - 1) as real, n as real, 0.0);
    QuotientBounds((if m > 1 then m - 2 else 0) as real, n as real, 0.0);
    QuotientBounds((if m > 1 then m - 2 else 0) as real, n as real, q);
  }

  lemma {:induction false} WeightedStep(w: real, p: real, q: real, s: real, a: real)
    requires 0.0 <= w <= p * s && p <= q && 0.0 <= q && s >= 0.0 && a >= 0.0
    ensures 0.0 <= w + q * a <= q * (s + a)
  {
    ProductMonotone(p, q, s);
    ProductNonNegative(q, a);
  }

  /** The centroid is a normalised frequency in [0, 1/2), whatever the spectrum. */
  lemma {:induction false} CentroidInRange(y: Signal, abs: Complex -> real)
    requires IsAbs(abs)
    ensures 0.0 <= Centroid(y, abs) < 0.5
  {
    var m := |y| / 2;
    var num, den := WeightedSum(y, abs, m), MagnitudeSum(y, abs, m);
    WeightedSumBounds(y, abs, m);
    if den >= 0.000001 {
      FractionBelowHalf(m - 1, |y|);
      RatioBelowHalf(num, (m - 1) as real / |y| as real, den);
    }
  }

  lemma {:induction false} RatioBelowHalf(num: real, q: real, den: real)
    requires 0.0 <= num <= q * den && q < 0.5 && den > 0.0
    ensures 0.0 <= num / den < 0.5
  {
    ProductStrict(q, 0.5, den);
    assert num < 0.5 * den;
    QuotientBounds(num, den, 0.0);
    QuotientBounds(num, den, 0.5);
  }

  // ---------------------------------------------------------------- the centroid is the balance point

  /** The magnitudes of the bins below n/2. */
  function LowerMagnitudes(y: Signal, abs: Complex -> real): (s: seq<real>)
    ensures |s| == |y| / 2
  {
    seq(|y| / 2, i requires 0 <= i < |y| / 2 => abs(y[i]))
  }

  /** How far the frequencies i/n of these bins lie above `c`. */
  function Offsets(n: nat, c: real): (s: seq<real>)
    ensures |s| == n / 2
  {
    seq(n / 2, i requires 0 <= i < n / 2 => i as real / n as real - c)
  }

  lemma {:induction false} MagnitudesAdd(y: Signal, abs: Complex -> real, m: nat)
    requires m <= |y| / 2
    ensures MagnitudeSum(y, abs, m) == Sum(LowerMagnitudes(y, abs)[..m])
  {
    if m > 0 {
      MagnitudesAdd(y, abs, m - 1);
      assert LowerMagnitudes(y, abs)[..m][..m - 1] == LowerMagnitudes(y, abs)[..m - 1];
    }
  }

  lemma {:induction false} OffsetsAdd(y: Signal, abs: Complex -> real, c: real, m: nat)
    requires m <= |y| / 2
    ensures Dot(Offsets(|y|, c)[..m], LowerMagnitudes(y, abs)[..m])
            == WeightedSum(y, abs, m) - Prod(c, MagnitudeSum(y, abs, m))
  {
    hide Prod;
    if m == 0 {
      ZeroProduct(c);
    } else {
      var f, s := Offsets(|y|, c), LowerMagnitudes(y, abs);
      OffsetsAdd(y, abs, c, m - 1);
      assert f[..m][..m - 1] == f[..m - 1] && s[..m][..m - 1] == s[..m - 1];
      OffsetStep((m - 1) as real / |y| as real, c, abs(y[m - 1]), MagnitudeSum(y, abs, m - 1));
    }
  }

  lemma {:induction false} OffsetStep(f: real, c: real, a: real, s: real)
    ensures Prod(f - c, a) == f * a - c * a && Prod(c, s + a) == Prod(c, s) + c * a
  {
    assert c * (s + a) == c * s + c * a && (f - c) * a == f * a - c * a;
  }

  /**
   * Main theorem: 0 for a total magnitude below 1e-6, and otherwise the one frequency c about which
   * the magnitudes balance: the sum of (i/n - c) |y[i]| over the lower half is 0.
   */
  lemma {:induction false} CentroidBalances(y: Signal, abs: Complex -> real, c: real)
    ensures var mags := LowerMagnitudes(y, abs);
            if Sum(mags) < 0.000001 then Centroid(y, abs) == 0.0
            else Dot(Offsets(|y|, c), mags) == 0.0 <==> c == Centroid(y, abs)
  {
    hide Prod, Dot, Sum, MagnitudeSum, WeightedSum;
    var m := |y| / 2;
    var mags, f := LowerMagnitudes(y, abs), Offsets(|y|, c);
    assert mags[..m] == mags && f[..m] == f;
    MagnitudesAdd(y, abs, m);
    OffsetsAdd(y, abs, c, m);
    if Sum(mags) >= 0.000001 {
      BalancedWhen(WeightedSum(y, abs, m), Sum(mags), c);
    }
  }

  lemma {:induction false} BalancedWhen(w: real, s: real, c: real)
    requires s > 0.0
    ensures w - Prod(c, s) == 0.0 <==> c == w / s
  {
    QuotientBounds(w, s, c);
  }

  /** All the magnitude of the lower half is in bin `m`. */
  ghost predicate OnlyBin(y: Signal, abs: Complex -> real, m: nat) {
    m < |y| / 2 && forall i :: 0 <= i < |y| / 2 && i != m ==> abs(y[i]) == 0.0
  }

  lemma {:induction false} SumOfOne(s: seq<real>, m: nat)
    requires m < |s| && forall i :: 0 <= i < |s| && i != m ==> s[i] == 0.0
    ensures Sum(s) == s[m]
  {
    var k := |s| - 1;
    if m == k {
      SumOfNone(s[..k]);
    } else {
      SumOfOne(s[..k], m);
    }
  }

  lemma {:induction false} SumOfNone(s: seq<real>)
    requires forall i :: 0 <= i < |s| ==> s[i] == 0.0
    ensures Sum(s) == 0.0
  {
    if s != [] {
      SumOfNone(s[..|s| - 1]);
    }
  }

  lemma {:induction false} DotOfProducts(f: seq<real>, s: seq<real>)
    requires |f| == |s|
    requires forall i :: 0 <= i < |s| ==> Prod(f[i], s[i]) == 0.0
    ensures Dot(f, s) == 0.0
  {
    hide Prod;
    if s != [] {
      DotOfProducts(f[..|s| - 1], s[..|s| - 1]);
    }
  }

  /** A single bin that passes the cutoff has its own frequency as the centroid. */
  lemma {:induction false} CentroidOfOneBin(y: Signal, abs: Complex -> real, m: nat)
    requires OnlyBin(y, abs, m) && abs(y[m]) >= 0.000001
    ensures Centroid(y, abs) == m as real / |y| as real
  {
    hide Dot, Sum, Centroid;
    var c := m as real / |y| as real;
    var mags, f := LowerMagnitudes(y, abs), Offsets(|y|, c);
    SumOfOne(mags, m);
    DotOfProducts(f, mags);
    CentroidBalances(y, abs, c);
  }

  lemma {:induction false} NonNegativeDot(f: seq<real>, s: seq<real>)
    requires |f| == |s|
    requires forall i :: 0 <= i < |s| ==> f[i] >= 0.0 && s[i] >= 0.0
    ensures Dot(f, s) >= 0.0
    ensures Dot(f, s) == 0.0 ==> forall i :: 0 <= i < |s| && f[i] > 0.0 ==> s[i] == 0.0
  {
    hide Prod;
    if s != [] {
      var k := |s| - 1;
      NonNegativeDot(f[..k], s[..k]);
      SignsOfProduct(f[k], s[k]);
      if Dot(f, s) == 0.0 {
        forall i | 0 <= i < |s| && f[i] > 0.0
          ensures s[i] == 0.0
        {
          assert i < k ==> f[..k][i] == f[i] && s[..k][i] == s[i];
        }
      }
    }
  }

  lemma {:induction false} SignsOfProduct(x: real, y: real)
    requires x >= 0.0 && y >= 0.0
    ensures Prod(x, y) >= 0.0 && (Prod(x, y) == 0.0 && x > 0.0 ==> y == 0.0)
  {
    ProductNonNegative(x, y);
    if x > 0.0 && y > 0.0 {
      SameSigns(x, y);
    }
  }

  /** The result is 0 exactly if the total magnitude is below 1e-6 or all of it lies in bin 0. */
  lemma {:induction false} CentroidIsZeroWhen(y: Signal, abs: Complex -> real)
    requires forall z :: abs(z) >= 0.0
    ensures Centroid(y, abs) == 0.0 <==> Sum(LowerMagnitudes(y, abs)) < 0.000001 || OnlyBin(y, abs, 0)
  {
    hide Dot, Sum, Centroid;
    var mags, f, n := LowerMagnitudes(y, abs), Offsets(|y|, 0.0), |y|;
    CentroidBalances(y, abs, 0.0);
    if Sum(mags) >= 0.000001 {
      if n / 2 == 0 {
        SumOfNone(mags);
      }
      forall i | 0 <= i < n / 2
        ensures f[i] >= 0.0 && (i > 0 ==> f[i] > 0.0)
      {
        QuotientBounds(i as real, n as real, 0.0);
      }
      NonNegativeDot(f, mags);
      if Centroid(y, abs) == 0.0 {
        assert forall i :: 0 < i < n / 2 ==> mags[i] == abs(y[i]);
      }
      if OnlyBin(y, abs, 0) {
        assert f[0] == 0.0;
        DotOfProducts(f, mags);
      }
    }
  }
}

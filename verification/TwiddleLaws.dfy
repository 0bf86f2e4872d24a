/**
 * The laws asked of the twiddles can be met at every size: from square roots alone, by halving the
 * angle over and over.
 */
module TwiddleLaws {
  import opened ComplexNumbers
  import opened Powers
  import opened RealFacts
  import opened Fft

  const I := Complex(0.0, 1.0)

  /** exp(i a/2) from exp(i a), for an angle in the first quadrant. */
  function HalfAngle(w: Complex, sqrt: real -> real): Complex {
    Complex(sqrt((1.0 + w.re) / 2.0), sqrt((1.0 - w.re) / 2.0))
  }

  /** exp(2 pi i / 2^k). */
  function RootOfUnity(k: nat, sqrt: real -> real): Complex {
    if k == 0 then ONE else if k == 1 then MINUS_ONE else if k == 2 then I
    else HalfAngle(RootOfUnity(k - 1, sqrt), sqrt)
  }

  ghost predicate FirstQuadrant(w: Complex) {
    w.re >= 0.0 && w.im >= 0.0 && Prod(w.re, w.re) + Prod(w.im, w.im) == 1.0
  }

  lemma {:induction false} HalfAngleSquared(w: Complex, sqrt: real -> real)
    requires IsSqrt(sqrt) && FirstQuadrant(w)
    ensures var h := HalfAngle(w, sqrt); FirstQuadrant(h) && h.Times(h) == w
  {
    hide Prod;
    AtMostOne(w.re, w.im);
    var p, q := (1.0 + w.re) / 2.0, (1.0 - w.re) / 2.0;
    var a, b := sqrt(p), sqrt(q);
    assert Prod(a, a) == p && Prod(b, b) == q;
    CrossTerm(a, b, w.re, w.im);
    SquareParts(a, b);
  }

  lemma {:induction false} AtMostOne(c: real, s: real)
    requires c >= 0.0 && s >= 0.0 && Prod(c, c) + Prod(s, s) == 1.0
    ensures c <= 1.0
  {
    ProductNonNegative(s, s);
    if c > 1.0 {
      ProductStrict(1.0, c, c);
    }
  }

  lemma {:induction false} CrossTerm(a: real, b: real, c: real, s: real)
    requires a >= 0.0 && b >= 0.0 && s >= 0.0
    requires Prod(a, a) == (1.0 + c) / 2.0 && Prod(b, b) == (1.0 - c) / 2.0
    requires Prod(c, c) + Prod(s, s) == 1.0
    ensures 2.0 * Prod(a, b) == s
  {
    ProductNonNegative(a, b);
    var t := 2.0 * Prod(a, b);
    assert t * t == 4.0 * (Prod(a, a) * Prod(b, b));
    assert (1.0 + c) / 2.0 * ((1.0 - c) / 2.0) == (1.0 - c * c) / 4.0;
    SquareInjective(t, s);
  }

  lemma {:induction false} SquareParts(a: real, b: real)
    ensures Complex(a, b).Times(Complex(a, b)) == Complex(Prod(a, a) - Prod(b, b), 2.0 * Prod(a, b))
  {
  }

  lemma {:induction false} RootsOfUnity(k: nat, sqrt: real -> real)
    requires IsSqrt(sqrt) && k > 0
    ensures Pow(RootOfUnity(k, sqrt), 2) == RootOfUnity(k - 1, sqrt)
    ensures k >= 2 ==> FirstQuadrant(RootOfUnity(k, sqrt))
  {
    hide Complex.Times, IsSqrt, HalfAngle;
    Square(RootOfUnity(k, sqrt));
    SmallSquares();
    if k > 2 {
      RootsOfUnity(k - 1, sqrt);
      HalfAngleSquared(RootOfUnity(k - 1, sqrt), sqrt);
    }
  }

  lemma {:induction false} SmallSquares()
    ensures MINUS_ONE.Times(MINUS_ONE) == ONE && I.Times(I) == MINUS_ONE
  {
  }

  function Log2(n: nat): nat {
    if n <= 1 then 0 else 1 + Log2(n / 2)
  }

  lemma {:induction false} LogOfPower(k: nat)
    ensures Log2(Pow2(k)) == k
  {
    if k > 0 {
      LogOfPower(k - 1);
    }
  }

  /** The twiddle of every size: what exp(2 pi i / n) is at powers of two. */
  function AllRoots(sqrt: real -> real): nat -> Complex {
    (n: nat) => RootOfUnity(Log2(n), sqrt)
  }

  lemma {:induction false} RootAtPower(j: nat, sqrt: real -> real)
    ensures AllRoots(sqrt)(Pow2(j)) == RootOfUnity(j, sqrt)
    ensures AllRoots(sqrt)(1) == ONE && AllRoots(sqrt)(2) == MINUS_ONE
  {
    LogOfPower(j);
  }

  /** So the laws can be met for every k. */
  lemma {:induction false} TwiddlesExist(k: nat, sqrt: real -> real)
    requires IsSqrt(sqrt)
    ensures Twiddles(AllRoots(sqrt), k)
  {
    hide Pow, IsSqrt, AllRoots, RootOfUnity, Pow2;
    RootAtPower(0, sqrt);
    forall j | 0 < j <= k
      ensures Pow(AllRoots(sqrt)(Pow2(j)), 2) == AllRoots(sqrt)(Pow2(j - 1))
    {
      RootAtPower(j, sqrt);
      RootAtPower(j - 1, sqrt);
      RootsOfUnity(j, sqrt);
    }
  }
}

/**
 * What the inverse direction of `simple_fft` undoes (core/frequency_analyzer.cpp:33-37).  The
 * proof follows the data: the even bins are the transform of the two halves of the signal added,
 * the odd bins that of their difference, twisted by powers of the twiddle.
 */
module FftInverse {
  import opened ComplexNumbers
  import opened Powers
  import opened Fft

  /** lo + c hi, element by element. */
  function Fold(lo: Signal, hi: Signal, c: Complex): (f: Signal)
    requires |lo| == |hi|
    ensures |f| == |lo|
  {
    seq(|lo|, i requires 0 <= i < |lo| => lo[i].Plus(c.Times(hi[i])))
  }

  /** c a[0], c w a[1], c w^2 a[2], ... */
  function Twist(a: Signal, w: Complex, c: Complex): (t: Signal)
    ensures |t| == |a|
  {
    if a == [] then [] else [c.Times(a[0])] + Twist(a[1..], w, c.Times(w))
  }

  lemma {:induction false} TwistAt(a: Signal, w: Complex, c: Complex, i: nat)
    requires i < |a|
    ensures Twist(a, w, c)[i] == c.Times(Pow(w, i)).Times(a[i])
  {
    hide Complex.Times;
    if i == 0 {
      TimesOne(c);
    } else {
      TwistAt(a[1..], w, c.Times(w), i - 1);
      TimesAssoc(c, w, Pow(w, i - 1));
    }
  }

  lemma {:induction false} EvalTwist(a: Signal, w: Complex, c: Complex, z: Complex)
    ensures Eval(Twist(a, w, c), z) == c.Times(Eval(a, w.Times(z)))
  {
    hide Complex.Times, Complex.Plus;
    if a == [] {
      TimesZero(c);
    } else {
      var e := Eval(a[1..], w.Times(z));
      EvalTwist(a[1..], w, c.Times(w), z);
      calc {
        Eval(Twist(a, w, c), z);
        c.Times(a[0]).Plus(z.Times(c.Times(w).Times(e)));
        { TimesAssoc(z, c.Times(w), e); TimesComm(z, c.Times(w)); TimesAssoc(c, w, z); }
        c.Times(a[0]).Plus(c.Times(w.Times(z)).Times(e));
        { TimesAssoc(c, w.Times(z), e); TimesPlus(c, a[0], w.Times(z).Times(e)); }
        c.Times(a[0].Plus(w.Times(z).Times(e)));
      }
    }
  }

  lemma {:induction false} FoldStep(a: Complex, b: Complex, c: Complex, z: Complex, p: Complex, q: Complex)
    ensures a.Plus(c.Times(b)).Plus(z.Times(p.Plus(c.Times(q))))
            == a.Plus(z.Times(p)).Plus(c.Times(b.Plus(z.Times(q))))
  {
    hide Complex.Times;
    TimesPlus(z, p, c.Times(q));
    TimesPlus(c, b, z.Times(q));
    TimesAssoc(z, c, q);
    TimesAssoc(c, z, q);
    TimesComm(z, c);
  }

  lemma {:induction false} EvalFold(lo: Signal, hi: Signal, c: Complex, z: Complex)
    requires |lo| == |hi|
    ensures Eval(Fold(lo, hi, c), z) == Eval(lo, z).Plus(c.Times(Eval(hi, z)))
  {
    hide Complex.Times, Complex.Plus;
    if lo == [] {
      TimesZero(c);
      TimesZero(ZERO);
    } else {
      EvalFold(lo[1..], hi[1..], c, z);
      assert Fold(lo, hi, c)[1..] == Fold(lo[1..], hi[1..], c);
      FoldStep(lo[0], hi[0], c, z, Eval(lo[1..], z), Eval(hi[1..], z));
    }
  }

  lemma {:induction false} PlusAssoc(a: Complex, b: Complex, c: Complex)
    ensures a.Plus(b).Plus(c) == a.Plus(b.Plus(c))
    ensures ZERO.Plus(a) == a
  {
  }

  lemma {:induction false} EvalConcat(a: Signal, b: Signal, z: Complex)
    ensures Eval(a + b, z) == Eval(a, z).Plus(Pow(z, |a|).Times(Eval(b, z)))
  {
    hide Complex.Times, Complex.Plus;
    if a == [] {
      assert a + b == b;
      TimesOne(Eval(b, z));
      PlusAssoc(Eval(b, z), ZERO, ZERO);
    } else {
      var p, q := Pow(z, |a| - 1), Eval(b, z);
      EvalConcat(a[1..], b, z);
      assert (a + b)[1..] == a[1..] + b;
      TimesPlus(z, Eval(a[1..], z), p.Times(q));
      TimesAssoc(z, p, q);
      PlusAssoc(a[0], z.Times(Eval(a[1..], z)), z.Times(p).Times(q));
    }
  }

  /** A value at z only sees the two halves folded with z^(n/2). */
  lemma {:induction false} EvalHalves(x: Signal, z: Complex)
    requires |x| % 2 == 0
    ensures var h := |x| / 2;
            Eval(x, z) == Eval(Fold(x[..h], x[h..], Pow(z, h)), z)
  {
    var h := |x| / 2;
    assert x[..h] + x[h..] == x;
    EvalConcat(x[..h], x[h..], z);
    EvalFold(x[..h], x[h..], Pow(z, h), z);
  }

  /** (w^2)^j returns to 1 after half the length. */
  lemma {:induction false} FullTurn(w: Complex, k: nat, j: nat)
    requires k > 0 && HalfTurn(w, k)
    ensures Pow(Pow(w.Times(w), j), Pow2(k - 1)) == ONE
  {
    hide Complex.Times;
    var h, v := Pow2(k - 1), w.Times(w);
    PowOfPow(v, j, h);
    PowOfPow(v, h, j);
    assert j * h == h * j;
    SquareOfPow(w, h);
    MinusOneSquared();
    PowOne(j);
  }

  lemma {:induction false} MinusOneSquared()
    ensures MINUS_ONE.Times(MINUS_ONE) == ONE
    ensures MINUS_ONE.Times(ONE) == MINUS_ONE
  {
  }

  lemma {:induction false} SquarePower(w: Complex, j: nat)
    ensures Pow(w, 2 * j) == Pow(w.Times(w), j)
    ensures Pow(w, 2 * j + 1) == w.Times(Pow(w.Times(w), j))
  {
    hide Complex.Times;
    PowAdd(w, j, j);
    SquareOfPow(w, j);
  }

  lemma {:induction false} HalfTurnAt(w: Complex, k: nat, n: nat)
    requires k > 0 && HalfTurn(w, k) && n == Pow2(k)
    ensures n % 2 == 0 && n / 2 == Pow2(k - 1) && Pow(w, n / 2) == MINUS_ONE
  {
    hide Complex.Times, Pow;
  }

  lemma {:induction false} EvenBin(x: Signal, w: Complex, k: nat, j: nat)
    requires k > 0 && |x| == Pow2(k) && HalfTurn(w, k) && j < |x| / 2
    ensures var h := |x| / 2;
            Dft(x, w)[2 * j] == Dft(Fold(x[..h], x[h..], ONE), w.Times(w))[j]
  {
    hide Complex.Times, Complex.Plus, Eval, HalfTurn, DirectSum, Dft, Pow, Fold;
    HalfTurnAt(w, k, |x|);
    var h := |x| / 2;
    var f := Fold(x[..h], x[h..], ONE);
    DftBin(x, w, 2 * j);
    DftBin(f, w.Times(w), j);
    SquarePower(w, j);
    FullTurn(w, k, j);
    EvalHalves(x, Pow(w, 2 * j));
  }

  lemma {:induction false} EvensAre(y: Signal, z: Signal)
    requires |z| == |y| / 2 && forall j :: 0 <= j < |z| ==> y[2 * j] == z[j]
    ensures Evens(y) == z
  {
  }

  /** The even bins of a transform are the transform of the two halves added. */
  lemma {:induction false} EvenBins(x: Signal, w: Complex, k: nat)
    requires k > 0 && |x| == Pow2(k) && HalfTurn(w, k)
    ensures var h := |x| / 2;
            Evens(Dft(x, w)) == Dft(Fold(x[..h], x[h..], ONE), w.Times(w))
  {
    hide Complex.Times, Dft, Fold, HalfTurn, Evens;
    var h := |x| / 2;
    var y, z := Dft(x, w), Dft(Fold(x[..h], x[h..], ONE), w.Times(w));
    forall j | 0 <= j < h
      ensures y[2 * j] == z[j]
    {
      EvenBin(x, w, k, j);
    }
    EvensAre(y, z);
  }

  lemma {:induction false} OddBin(x: Signal, w: Complex, k: nat, j: nat)
    requires k > 0 && |x| == Pow2(k) && HalfTurn(w, k) && j < |x| / 2
    ensures var h := |x| / 2;
            Dft(x, w)[2 * j + 1]
            == Dft(Twist(Fold(x[..h], x[h..], MINUS_ONE), w, ONE), w.Times(w))[j]
  {
    hide Complex.Times, Complex.Plus, Eval, HalfTurn, DirectSum, Dft, Pow, Fold, Twist;
    HalfTurnAt(w, k, |x|);
    var h, v, z := |x| / 2, w.Times(w), Pow(w, 2 * j + 1);
    var f := Fold(x[..h], x[h..], MINUS_ONE);
    DftBin(x, w, 2 * j + 1);
    DftBin(Twist(f, w, ONE), v, j);
    SquarePower(w, j);
    FullTurn(w, k, j);
    PowOfProduct(w, Pow(v, j), h);
    MinusOneSquared();
    EvalHalves(x, z);
    EvalTwist(f, w, ONE, Pow(v, j));
    TimesOne(Eval(f, z));
  }

  lemma {:induction false} OddsAre(y: Signal, z: Signal)
    requires |z| == |y| / 2 && forall j :: 0 <= j < |z| ==> y[2 * j + 1] == z[j]
    ensures Odds(y) == z
  {
  }

  /** The odd bins are the transform of their difference, twisted. */
  lemma {:induction false} OddBins(x: Signal, w: Complex, k: nat)
    requires k > 0 && |x| == Pow2(k) && HalfTurn(w, k)
    ensures var h := |x| / 2;
            Odds(Dft(x, w)) == Dft(Twist(Fold(x[..h], x[h..], MINUS_ONE), w, ONE), w.Times(w))
  {
    hide Complex.Times, Dft, Fold, Twist, HalfTurn, Odds;
    var h := |x| / 2;
    var y, z := Dft(x, w), Dft(Twist(Fold(x[..h], x[h..], MINUS_ONE), w, ONE), w.Times(w));
    forall j | 0 <= j < h
      ensures y[2 * j + 1] == z[j]
    {
      OddBin(x, w, k, j);
    }
    OddsAre(y, z);
  }

  /** The reciprocal of a valid twiddle is one too, and so are their squares. */
  lemma {:induction false} Reciprocal(w: Complex, r: Complex, k: nat)
    requires k > 0 && HalfTurn(w, k) && w.Times(r) == ONE
    ensures HalfTurn(r, k)
    ensures HalfTurn(w.Times(w), k - 1) && w.Times(w).Times(r.Times(r)) == ONE
  {
    hide Complex.Times;
    var h := Pow2(k - 1);
    PowOfProduct(w, r, h);
    PowOne(h);
    NegatedOne(Pow(r, h));
    TimesSwap(w, w, r, r);
    TimesOne(ONE);
    if k > 1 {
      SquareOfPow(w, Pow2(k - 2));
      PowAdd(w, Pow2(k - 2), Pow2(k - 2));
    }
  }

  lemma {:induction false} NegatedOne(z: Complex)
    ensures MINUS_ONE.Times(z) == ONE ==> z == MINUS_ONE
  {
  }

  /** One pair of outputs: the sum and the twisted difference, untwisted, give both halves back. */
  lemma {:induction false} UndoFold(a: Complex, b: Complex, u: Complex, t: Complex, g: real)
    requires t.Times(u) == ONE
    ensures var s := a.Plus(ONE.Times(b)).Scale(g);
            var d := ONE.Times(u).Times(a.Plus(MINUS_ONE.Times(b))).Scale(g);
            && Upper(s, d, t) == a.Scale(2.0 * g)
            && Lower(s, d, t) == b.Scale(2.0 * g)
  {
    var diff := a.Plus(MINUS_ONE.Times(b));
    assert t.Times(ONE.Times(u).Times(diff).Scale(g)) == diff.Scale(g) by {
      hide Complex.Times;
      TimesOne(u);
      ScaleTimes(t, u.Times(diff), g);
      TimesAssoc(t, u, diff);
      TimesOne(diff);
    }
    hide Complex.Times;
    assert ONE.Times(b) == b by { TimesOne(b); }
    Negate(b);
    ScalePlus(a, b, g);
  }

  lemma {:induction false} Negate(b: Complex)
    ensures MINUS_ONE.Times(b) == ZERO.Minus(b)
  {
  }

  lemma {:induction false} FoldAt(x: Signal, h: nat, c: Complex, j: nat)
    requires |x| == 2 * h && j < h
    ensures Fold(x[..h], x[h..], c)[j] == x[j].Plus(c.Times(x[j + h]))
  {
  }

  /** A bin of a spectrum that is transformed back. */
  lemma {:induction false} BinUndone(y: Signal, f: Signal, q: Complex, g: real, j: nat)
    requires j < |f| && Dft(y, q) == ScaleAll(f, g)
    ensures Eval(y, Pow(q, j)) == f[j].Scale(g)
  {
    hide Complex.Scale, Dft, Eval, Pow;
    DftBin(y, q, j);
  }

  lemma {:induction false} TwistedBinUndone(y: Signal, d: Signal, w: Complex, q: Complex, g: real, j: nat)
    requires j < |d| && Dft(y, q) == ScaleAll(Twist(d, w, ONE), g)
    ensures Eval(y, Pow(q, j)) == ONE.Times(Pow(w, j)).Times(d[j]).Scale(g)
  {
    hide Complex.Times, Complex.Scale, Dft, Eval, Pow, Twist, ScaleAll;
    BinUndone(y, Twist(d, w, ONE), q, g, j);
    TwistAt(d, w, ONE, j);
  }

  lemma {:induction false} ReciprocalPowers(w: Complex, r: Complex, j: nat)
    requires w.Times(r) == ONE
    ensures Pow(r, j).Times(Pow(w, j)) == ONE
  {
    hide Complex.Times, Pow;
    PowOfProduct(r, w, j);
    TimesComm(w, r);
    PowOne(j);
  }

  /** Two outputs of the second transform, given that it undoes both half-size transforms. */
  lemma {:induction false} InversePair(x: Signal, w: Complex, r: Complex, k: nat, g: real, j: nat)
    requires k > 0 && |x| == Pow2(k) && j < |x| / 2
    requires HalfTurn(w, k) && HalfTurn(r, k) && w.Times(r) == ONE
    requires var h := |x| / 2;
             var f, t := Fold(x[..h], x[h..], ONE), Twist(Fold(x[..h], x[h..], MINUS_ONE), w, ONE);
             && Dft(Dft(f, w.Times(w)), r.Times(r)) == ScaleAll(f, g)
             && Dft(Dft(t, w.Times(w)), r.Times(r)) == ScaleAll(t, g)
    ensures Dft(Dft(x, w), r)[j] == x[j].Scale(2.0 * g)
    ensures Dft(Dft(x, w), r)[j + |x| / 2] == x[j + |x| / 2].Scale(2.0 * g)
  {
    hide Complex.Times, Complex.Plus, Complex.Scale, Upper, Lower, Dft, Twist, Evens, Odds, Eval, Pow;
    hide Fold, ScaleAll, HalfTurn;
    var h, y, q := |x| / 2, Dft(x, w), r.Times(r);
    EvenBins(x, w, k);
    OddBins(x, w, k);
    FoldAt(x, h, ONE, j);
    FoldAt(x, h, MINUS_ONE, j);
    BinUndone(Evens(y), Fold(x[..h], x[h..], ONE), q, g, j);
    TwistedBinUndone(Odds(y), Fold(x[..h], x[h..], MINUS_ONE), w, q, g, j);
    BinFromHalves(y, r, k, j);
    DftBin(y, r, j);
    DftBin(y, r, j + h);
    ReciprocalPowers(w, r, j);
    UndoFold(x[j], x[j + h], Pow(w, j), Pow(r, j), g);
  }

  /** Transforming with w and then with 1/w multiplies every sample by n. */
  lemma {:induction false} InverseDft(x: Signal, w: Complex, r: Complex, k: nat)
    requires |x| == Pow2(k) && HalfTurn(w, k) && w.Times(r) == ONE
    ensures Dft(Dft(x, w), r) == ScaleAll(x, Pow2(k) as real)
    decreases k
  {
    hide Complex.Times, Complex.Scale, Complex.Plus, Dft, Twist, Fold, HalfTurn, Pow;
    if k == 0 {
      SingleDft(x, w);
      SingleDft(x, r);
    } else {
      var h, g := |x| / 2, Pow2(k - 1) as real;
      Reciprocal(w, r, k);
      InverseDft(Fold(x[..h], x[h..], ONE), w.Times(w), r.Times(r), k - 1);
      InverseDft(Twist(Fold(x[..h], x[h..], MINUS_ONE), w, ONE), w.Times(w), r.Times(r), k - 1);
      assert Pow2(k) as real == 2.0 * g;
      var z, s := Dft(Dft(x, w), r), ScaleAll(x, Pow2(k) as real);
      forall j | 0 <= j < |x|
        ensures z[j] == s[j]
      {
        InversePair(x, w, r, k, g, if j < h then j else j - h);
      }
    }
  }

  lemma {:induction false} SingleDft(x: Signal, w: Complex)
    requires |x| == 1
    ensures Dft(x, w) == x == ScaleAll(x, 1.0)
  {
    DftBin(x, w, 0);
    assert Eval(x[1..], ONE) == ZERO;
  }

  // ---------------------------------------------------------------- the code's round trip

  lemma {:induction false} HalvingsOfInverse(k: nat)
    ensures Halvings(true, k) == k * (k - 1) / 2 + k
  {
    if k > 0 {
      HalvingsOfInverse(k - 1);
      assert k * (k - 1) == (k - 1) * (k - 2) + 2 * (k - 1);
    }
  }

  lemma {:induction false} ScaleBack(z: Complex, e: nat, k: nat)
    ensures z.Scale(Pow2(k) as real).Scale(Half(e + k)) == z.Scale(Half(e))
  {
    HalfOver(e, k);
    ScaleScale(z, Pow2(k) as real, Half(e + k));
  }

  lemma {:induction false} ForwardIsDft(x: Signal, tw: nat -> Complex, k: nat)
    requires |x| == Pow2(k) && Twiddles(tw, k)
    ensures Transform(x, tw, false) == Dft(x, tw(|x|))
  {
    TransformIsDft(x, tw, false, k);
    forall i | 0 <= i < |x|
      ensures Transform(x, tw, false)[i] == Dft(x, tw(|x|))[i]
    {
      ScaleOver(Dft(x, tw(|x|))[i], 1.0, 1);
    }
  }

  lemma {:induction false} ConjugateIsReciprocal(tw: nat -> Complex, k: nat)
    requires Twiddles(tw, k)
    ensures HalfTurn(tw(Pow2(k)), k) && tw(Pow2(k)).Times(tw(Pow2(k)).Conj()) == ONE
  {
    TwiddlesHalfTurn(tw, k);
    TimesConj(tw(Pow2(k)));
  }

  /** With one division by n at the top, the inverse direction returns the signal exactly. */
  lemma {:induction false} SingleDivisionRoundTrip(x: Signal, tw: nat -> Complex, k: nat)
    requires |x| == Pow2(k) && Twiddles(tw, k)
    ensures DivideAll(Dft(Transform(x, tw, false), tw(|x|).Conj())) == x
  {
    hide Transform, Dft, Complex.Times, Complex.Scale, Complex.Over, Twiddles;
    var w, n := tw(|x|), |x| as real;
    ForwardIsDft(x, tw, k);
    ConjugateIsReciprocal(tw, k);
    InverseDft(x, w, w.Conj(), k);
    forall i | 0 <= i < |x|
      ensures x[i].Scale(n).Over(|x|) == x[i]
    {
      ScaleThenOver(x[i], |x|);
    }
  }

  lemma {:induction false} ScaleThenOver(z: Complex, n: nat)
    requires n > 0
    ensures z.Scale(n as real).Over(n) == z
  {
  }

  /** With the division at every level, as the code has it, it returns x / 2^(k(k-1)/2). */
  lemma {:induction false} RoundTrip(x: Signal, tw: nat -> Complex, k: nat)
    requires |x| == Pow2(k) && Twiddles(tw, k)
    ensures Transform(Transform(x, tw, false), tw, true) == ScaleAll(x, Half(k * (k - 1) / 2))
  {
    hide Transform, Dft, Complex.Times, Complex.Scale, Complex.Over, Twiddles, Half;
    var w := tw(|x|);
    ForwardIsDft(x, tw, k);
    ConjugateIsReciprocal(tw, k);
    InverseDft(x, w, w.Conj(), k);
    TransformIsDft(Dft(x, w), tw, true, k);
    HalvingsOfInverse(k);
    forall i | 0 <= i < |x|
      ensures Transform(Dft(x, w), tw, true)[i] == x[i].Scale(Half(k * (k - 1) / 2))
    {
      ScaleBack(x[i], k * (k - 1) / 2, k);
    }
  }

  /** So the inverse undoes the forward transform exactly when n <= 2 or the signal is zero. */
  lemma {:induction false} RoundTripExactWhen(x: Signal, tw: nat -> Complex, k: nat)
    requires |x| == Pow2(k) && Twiddles(tw, k)
    ensures Transform(Transform(x, tw, false), tw, true) == x
            <==> |x| <= 2 || forall i :: 0 <= i < |x| ==> x[i] == ZERO
  {
    hide Transform, Twiddles, Half, Pow2;
    var y, c := Transform(Transform(x, tw, false), tw, true), Half(k * (k - 1) / 2);
    RoundTrip(x, tw, k);
    forall i | 0 <= i < |x|
      ensures y[i] == x[i] <==> (c == 1.0 || x[i] == ZERO)
    {
      assert y[i] == Complex(c * x[i].re, c * x[i].im);
      ScaleFixes(x[i].re, c);
      ScaleFixes(x[i].im, c);
    }
    ScaleIsOneWhen(k);
  }

  lemma {:induction false} ScaleFixes(x: real, c: real)
    ensures c * x == x <==> (c == 1.0 || x == 0.0)
  {
    if c * x == x {
      assert (c - 1.0) * x == 0.0;
    }
  }

  lemma {:induction false} ScaleIsOneWhen(k: nat)
    ensures Half(k * (k - 1) / 2) == 1.0 <==> Pow2(k) <= 2
  {
    var e := k * (k - 1) / 2;
    if k <= 1 {
      assert e == 0;
    } else {
      assert k * (k - 1) >= 2 * (k - 1);
      HalfBelowOne(e);
      assert Pow2(k) == 2 * Pow2(k - 1) && Pow2(k - 1) == 2 * Pow2(k - 2);
    }
  }

  lemma {:induction false} HalfBelowOne(e: nat)
    requires e > 0
    ensures Half(e) < 1.0
  {
    if e > 1 {
      HalfBelowOne(e - 1);
    }
  }
}

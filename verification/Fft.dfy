/**
 * The in-place radix-2 transform `simple_fft` (core/frequency_analyzer.cpp:7-38), and the proof
 * that it computes the discrete Fourier transform in both directions.
 */
module Fft {
  import opened ComplexNumbers
  import opened Powers
  import opened RealFacts

  type Signal = seq<Complex>

  // ---------------------------------------------------------------- the algorithm as a function

  function Evens(x: Signal): (e: Signal)
    ensures |e| == |x| / 2
  {
    seq(|x| / 2, i requires 0 <= i < |x| / 2 => x[2 * i])
  }

  function Odds(x: Signal): (o: Signal)
    ensures |o| == |x| / 2
  {
    seq(|x| / 2, i requires 0 <= i < |x| / 2 => x[2 * i + 1])
  }

  /** The twiddle of one level: exp(+-2 pi i / n), with `tw(n)` standing for exp(2 pi i / n). */
  function Twiddle(tw: nat -> Complex, n: nat, invert: bool): Complex {
    if invert then tw(n).Conj() else tw(n)
  }

  function Upper(e: Complex, o: Complex, w: Complex): Complex {
    e.Plus(w.Times(o))
  }

  function Lower(e: Complex, o: Complex, w: Complex): Complex {
    e.Minus(w.Times(o))
  }

  /** The combining loop; the last element of an odd-length vector is left alone. */
  function Butterfly(e: Signal, o: Signal, w: Complex, x: Signal): (y: Signal)
    requires |e| == |o| == |x| / 2
    ensures |y| == |x|
  {
    var h := |x| / 2;
    seq(|x|, i requires 0 <= i < |x| =>
      if i < h then Upper(e[i], o[i], Pow(w, i))
      else if i < 2 * h then Lower(e[i - h], o[i - h], Pow(w, i - h))
      else x[i])
  }

  function DivideAll(x: Signal): (y: Signal)
    ensures |y| == |x|
  {
    seq(|x|, i requires 0 <= i < |x| => x[i].Over(|x|))
  }

  function ScaleAll(x: Signal, c: real): (y: Signal)
    ensures |y| == |x|
  {
    seq(|x|, i requires 0 <= i < |x| => x[i].Scale(c))
  }

  /** What a whole run of `simple_fft` leaves in the vector, for every length. */
  function Transform(x: Signal, tw: nat -> Complex, invert: bool): (y: Signal)
    ensures |y| == |x|
    decreases |x|
  {
    var n := |x|;
    if n <= 1 then x else
    var y := Butterfly(Transform(Evens(x), tw, invert), Transform(Odds(x), tw, invert),
                       Twiddle(tw, n, invert), x);
    if invert then DivideAll(y) else y
  }

  /** The splitting loop: `data` dealt alternately into `even` and `odd`. */
  method Split(data: array<Complex>, even: array<Complex>, odd: array<Complex>)
    requires even.Length == odd.Length == data.Length / 2
    requires even != odd && even != data && odd != data
    modifies even, odd
    ensures even[..] == Evens(data[..]) && odd[..] == Odds(data[..])
  {
    for i := 0 to data.Length / 2
      invariant even[..i] == Evens(data[..])[..i] && odd[..i] == Odds(data[..])[..i]
    {
      even[i] := data[i * 2];
      odd[i] := data[i * 2 + 1];
      assert even[..i + 1] == even[..i] + [data[2 * i]];
      assert odd[..i + 1] == odd[..i] + [data[2 * i + 1]];
    }
  }

  /** The combining loop with its running twiddle `w`. */
  method Combine(data: array<Complex>, even: array<Complex>, odd: array<Complex>, wn: Complex)
    requires even.Length == odd.Length == data.Length / 2
    requires even != data && odd != data
    modifies data
    ensures data[..] == Butterfly(even[..], odd[..], wn, old(data[..]))
  {
    hide Complex.Times, Complex.Plus, Complex.Minus;
    var h := data.Length / 2;
    ghost var b := Butterfly(even[..], odd[..], wn, data[..]);
    var w := ONE;
    for i := 0 to h
      invariant w == Pow(wn, i)
      invariant forall j :: 0 <= j < i || h <= j < h + i || 2 * h <= j < data.Length ==> data[j] == b[j]
    {
      assert b[h + i] == Lower(even[i], odd[i], w);
      data[i] := even[i].Plus(w.Times(odd[i]));
      data[i + h] := even[i].Minus(w.Times(odd[i]));
      TimesComm(wn, w);
      w := w.Times(wn);
    }
  }

  /** The division of every element by the length, in the inverse direction. */
  method DivideByLength(data: array<Complex>)
    modifies data
    ensures data[..] == DivideAll(old(data[..]))
  {
    hide Complex.Over;
    ghost var y := data[..];
    for i := 0 to data.Length
      invariant forall j :: 0 <= j < i ==> data[j] == y[j].Over(|y|)
      invariant data[i..] == y[i..]
    {
      data[i] := data[i].Over(data.Length);
    }
  }

  /** `simple_fft`: split into two fresh vectors, transform both, combine. */
  method SimpleFft(data: array<Complex>, tw: nat -> Complex, invert: bool)
    modifies data
    ensures data[..] == Transform(old(data[..]), tw, invert)
    decreases data.Length
  {
    hide Butterfly, DivideAll, Twiddle, Evens, Odds;
    var n := data.Length;
    if n <= 1 {
      return;
    }
    var even, odd := new Complex[n / 2], new Complex[n / 2];
    Split(data, even, odd);
    SimpleFft(even, tw, invert);
    SimpleFft(odd, tw, invert);
    Combine(data, even, odd, Twiddle(tw, n, invert));
    if invert {
      DivideByLength(data);
    }
  }

  // ---------------------------------------------------------------- the specification

  /** x[j] w^(jk) + ... + x[n-1] w^((n-1)k): bin `k` of the transform is the sum from j = 0. */
  function DirectSum(x: Signal, w: Complex, k: nat, j: nat): Complex
    requires j <= |x|
    decreases |x| - j
  {
    if j == |x| then ZERO else x[j].Times(Pow(w, j * k)).Plus(DirectSum(x, w, k, j + 1))
  }

  /** The discrete Fourier transform with root `w`, straight from its definition. */
  function Dft(x: Signal, w: Complex): (y: Signal)
    ensures |y| == |x|
  {
    seq(|x|, k requires 0 <= k < |x| => DirectSum(x, w, k, 0))
  }

  /**
   * All that is used of exp(2 pi i / n) for n = 1, 2, 4, ..., 2^k: squaring the twiddle of one
   * level gives the twiddle of the next smaller one, and the one for n = 2 is -1.
   */
  ghost predicate Twiddles(tw: nat -> Complex, k: nat) {
    && tw(1) == ONE
    && (k > 0 ==> tw(2) == MINUS_ONE)
    && forall j :: 0 < j <= k ==> Pow(tw(Pow2(j)), 2) == tw(Pow2(j - 1))
  }

  /** w^(n/2) = -1 for n = 2^k. */
  ghost predicate HalfTurn(w: Complex, k: nat) {
    k > 0 ==> Pow(w, Pow2(k - 1)) == MINUS_ONE
  }

  // ---------------------------------------------------------------- polynomials

  /** Horner evaluation of x[0] + x[1] z + x[2] z^2 + ... */
  function Eval(x: Signal, z: Complex): Complex {
    if x == [] then ZERO else x[0].Plus(z.Times(Eval(x[1..], z)))
  }

  lemma {:induction false} DirectSumIsEval(x: Signal, w: Complex, k: nat, j: nat)
    requires j <= |x|
    ensures DirectSum(x, w, k, j) == Pow(w, j * k).Times(Eval(x[j..], Pow(w, k)))
    decreases |x| - j
  {
    hide Complex.Times, Complex.Plus;
    var p := Pow(w, j * k);
    if j == |x| {
      TimesZero(p);
    } else {
      var z, rest := Pow(w, k), Eval(x[j + 1..], Pow(w, k));
      DirectSumIsEval(x, w, k, j + 1);
      assert (j + 1) * k == j * k + k;
      PowAdd(w, j * k, k);
      assert x[j..][1..] == x[j + 1..];
      calc {
        x[j].Times(p).Plus(p.Times(z).Times(rest));
        { TimesComm(x[j], p); TimesAssoc(p, z, rest); }
        p.Times(x[j]).Plus(p.Times(z.Times(rest)));
        { TimesPlus(p, x[j], z.Times(rest)); }
        p.Times(x[j].Plus(z.Times(rest)));
      }
    }
  }

  lemma {:induction false} SplitStep(a: Complex, b: Complex, z: Complex, e: Complex, o: Complex)
    ensures var s := z.Times(z);
            a.Plus(z.Times(b.Plus(z.Times(e.Plus(z.Times(o))))))
            == a.Plus(s.Times(e)).Plus(z.Times(b.Plus(s.Times(o))))
  {
    hide Complex.Times;
    var s, zo := z.Times(z), z.Times(o);
    TimesPlus(z, b, z.Times(e.Plus(zo)));
    TimesPlus(z, e, zo);
    TimesPlus(z, z.Times(e), z.Times(zo));
    TimesPlus(z, b, s.Times(o));
    TimesAssoc(z, z, e);
    TimesAssoc(z, z, o);
  }

  /** The divide-and-conquer identity: x(z) = even(z^2) + z odd(z^2). */
  lemma {:induction false} EvalSplit(x: Signal, z: Complex)
    requires |x| % 2 == 0
    ensures Eval(x, z) == Eval(Evens(x), z.Times(z)).Plus(z.Times(Eval(Odds(x), z.Times(z))))
  {
    hide Complex.Times, Complex.Plus;
    var s := z.Times(z);
    if x == [] {
      TimesZero(z);
      TimesZero(ZERO);
    } else {
      var rest := x[2..];
      EvalSplit(rest, z);
      assert x[1..][1..] == rest;
      assert Evens(x) == [x[0]] + Evens(rest) && Odds(x) == [x[1]] + Odds(rest);
      assert Evens(x)[1..] == Evens(rest) && Odds(x)[1..] == Odds(rest);
      SplitStep(x[0], x[1], z, Eval(Evens(rest), s), Eval(Odds(rest), s));
    }
  }

  /** In the second half of the bins the twiddle has turned by w^(n/2) = -1. */
  lemma {:induction false} LowerIsUpper(e: Complex, o: Complex, v: Complex)
    ensures Lower(e, o, v) == Upper(e, o, MINUS_ONE.Times(v))
    ensures MINUS_ONE.Times(v).Times(MINUS_ONE.Times(v)) == v.Times(v)
  {
  }

  /** Half-size spectra of the even and odd samples combine into the full-size spectrum. */
  lemma {:induction false} BinFromHalves(x: Signal, w: Complex, k: nat, i: nat)
    requires k > 0 && |x| == Pow2(k) && HalfTurn(w, k) && i < |x| / 2
    ensures var v := w.Times(w);
            var e, o := Eval(Evens(x), Pow(v, i)), Eval(Odds(x), Pow(v, i));
            && Eval(x, Pow(w, i)) == Upper(e, o, Pow(w, i))
            && Eval(x, Pow(w, i + |x| / 2)) == Lower(e, o, Pow(w, i))
  {
    hide Complex.Times, Complex.Plus, Complex.Minus;
    var h := |x| / 2;
    var v, u := w.Times(w), Pow(w, i);
    SquareOfPow(w, i);
    EvalSplit(x, u);
    PowAdd(w, h, i);
    var e, o := Eval(Evens(x), Pow(v, i)), Eval(Odds(x), Pow(v, i));
    LowerIsUpper(e, o, u);
    EvalSplit(x, MINUS_ONE.Times(u));
  }

  // ---------------------------------------------------------------- the transform is the DFT

  lemma {:induction false} TwiddlesHalfTurn(tw: nat -> Complex, k: nat)
    requires Twiddles(tw, k)
    ensures HalfTurn(tw(Pow2(k)), k)
    ensures tw(Pow2(k)).Norm2() == 1.0
  {
    hide Complex.Times, Complex.Norm2;
    var w := tw(Pow2(k));
    Square(w);
    if k > 0 {
      TwiddlesHalfTurn(tw, k - 1);
      UnitRoot(w);
      TimesOne(w);
      if k > 1 {
        PowOfPow(w, 2, Pow2(k - 2));
      }
    }
  }

  lemma {:induction false} TwiddlesShrink(tw: nat -> Complex, k: nat)
    requires k > 0 && Twiddles(tw, k)
    ensures Twiddles(tw, k - 1)
  {
  }

  lemma {:induction false} Square(w: Complex)
    ensures Pow(w, 2) == w.Times(w)
    ensures ONE.Norm2() == 1.0
  {
    TimesOne(w);
    assert Pow(w, 2) == w.Times(Pow(w, 1)) && Pow(w, 1) == w.Times(Pow(w, 0));
  }

  /** A number whose square has modulus 1 has modulus 1. */
  lemma {:induction false} UnitRoot(w: Complex)
    ensures w.Times(w).Norm2() == 1.0 ==> w.Norm2() == 1.0
  {
    Norm2Times(w, w);
    if w.Times(w).Norm2() == 1.0 {
      hide Complex.Times, Complex.Norm2;
      NormNonNegative(w);
      UnitSquare(w.Norm2());
    }
  }

  lemma {:induction false} NormNonNegative(w: Complex)
    ensures w.Norm2() >= 0.0
  {
  }

  lemma {:induction false} UnitSquare(m: real)
    requires m >= 0.0 && m * m == 1.0
    ensures m == 1.0
  {
    if m < 1.0 {
      ProductNonNegative(m, 1.0 - m);
    }
  }

  /** Both directions use a valid twiddle at every level. */
  lemma {:induction false} TwiddleLevel(tw: nat -> Complex, invert: bool, k: nat)
    requires Twiddles(tw, k)
    ensures var w := Twiddle(tw, Pow2(k), invert);
            && HalfTurn(w, k)
            && w.Norm2() == 1.0
            && (k > 0 ==> w.Times(w) == Twiddle(tw, Pow2(k - 1), invert))
  {
    hide Complex.Times, Complex.Norm2, HalfTurn;
    var w := tw(Pow2(k));
    TwiddlesHalfTurn(tw, k);
    ConjNorm2(w);
    ConjHalfTurn(w, k);
    ConjTimes(w, w);
    Square(w);
  }

  lemma {:induction false} ConjHalfTurn(w: Complex, k: nat)
    requires HalfTurn(w, k)
    ensures HalfTurn(w.Conj(), k)
  {
    if k > 0 {
      ConjPow(w, Pow2(k - 1));
    }
  }

  /** The inverse divides by 2^k, 2^(k-1), ..., 2 on its way up: by 2^Halvings(k) in all. */
  function Halvings(invert: bool, k: nat): nat {
    if invert && k > 0 then Halvings(invert, k - 1) + k else 0
  }

  lemma {:induction false} ButterflyGain(e: Complex, o: Complex, u: Complex, g: real)
    ensures Upper(e.Scale(g), o.Scale(g), u) == Upper(e, o, u).Scale(g)
    ensures Lower(e.Scale(g), o.Scale(g), u) == Lower(e, o, u).Scale(g)
  {
    hide Complex.Times;
    ScaleTimes(u, o, g);
    ScalePlus(e, u.Times(o), g);
  }

  /** What the last loop of one level makes of an element. */
  function Settled(z: Complex, n: nat, invert: bool): Complex
    requires n > 0
  {
    if invert then z.Over(n) else z
  }

  lemma {:induction false} ButterflyAt(e: Signal, o: Signal, w: Complex, x: Signal, h: nat, j: nat)
    requires |x| == 2 * h && |e| == |o| == h && j < h
    ensures Butterfly(e, o, w, x)[j] == Upper(e[j], o[j], Pow(w, j))
    ensures Butterfly(e, o, w, x)[j + h] == Lower(e[j], o[j], Pow(w, j))
  {
    hide Upper, Lower, Pow;
  }

  lemma {:induction false} SettledAt(b: Signal, invert: bool, i: nat)
    requires i < |b|
    ensures (if invert then DivideAll(b) else b)[i] == Settled(b[i], |b|, invert)
  {
    hide Complex.Over;
  }

  /** One bin of one level, from the two half-size results. */
  lemma {:induction false} TransformStep(x: Signal, tw: nat -> Complex, invert: bool, h: nat, j: nat)
    requires |x| == 2 * h && j < h
    ensures var e, o := Transform(Evens(x), tw, invert)[j], Transform(Odds(x), tw, invert)[j];
            var u := Pow(Twiddle(tw, |x|, invert), j);
            var y := Transform(x, tw, invert);
            && y[j] == Settled(Upper(e, o, u), |x|, invert)
            && y[j + h] == Settled(Lower(e, o, u), |x|, invert)
  {
    hide Butterfly, DivideAll, Settled, Upper, Lower, Evens, Odds, Twiddle, Pow;
    var e, o, w := Transform(Evens(x), tw, invert), Transform(Odds(x), tw, invert), Twiddle(tw, |x|, invert);
    var b := Butterfly(e, o, w, x);
    assert Transform(x, tw, invert) == if invert then DivideAll(b) else b;
    ButterflyAt(e, o, w, x, h, j);
    SettledAt(b, invert, j);
    SettledAt(b, invert, j + h);
  }

  lemma {:induction false} SingleBin(x: Signal, tw: nat -> Complex, invert: bool, z: Complex)
    requires |x| == 1
    ensures Transform(x, tw, invert)[0] == Eval(x, z).Scale(Half(Halvings(invert, 0)))
  {
    assert Eval(x[1..], z) == ZERO;
  }

  /** The division of one level joins those of the levels below. */
  lemma {:induction false} LevelGain(z: Complex, invert: bool, k: nat)
    requires k > 0
    ensures Settled(z.Scale(Half(Halvings(invert, k - 1))), Pow2(k), invert)
            == z.Scale(Half(Halvings(invert, k)))
  {
    hide Complex.Scale, Complex.Over, Half, Pow2;
    var g := Half(Halvings(invert, k - 1));
    ScaleOver(z, g, Pow2(k));
    HalfOver(Halvings(invert, k - 1), k);
  }

  /** A butterfly of two scaled values, after the division of its level. */
  lemma {:induction false} ScaledPair(e: Complex, o: Complex, u: Complex, invert: bool, k: nat)
    requires k > 0
    ensures var g, g' := Half(Halvings(invert, k - 1)), Half(Halvings(invert, k));
            && Settled(Upper(e.Scale(g), o.Scale(g), u), Pow2(k), invert) == Upper(e, o, u).Scale(g')
            && Settled(Lower(e.Scale(g), o.Scale(g), u), Pow2(k), invert) == Lower(e, o, u).Scale(g')
  {
    hide Complex.Scale, Settled, Upper, Lower, Half, Halvings, Pow2;
    ButterflyGain(e, o, u, Half(Halvings(invert, k - 1)));
    LevelGain(Upper(e, o, u), invert, k);
    LevelGain(Lower(e, o, u), invert, k);
  }

  /** One level: two bins of the transform, from one of each half-size transform. */
  lemma {:induction false} TransformPair(x: Signal, tw: nat -> Complex, invert: bool, k: nat, h: nat, j: nat)
    requires k > 0 && |x| == Pow2(k) && h == Pow2(k - 1) && Twiddles(tw, k) && j < h
    ensures var z, g := Pow(Twiddle(tw, h, invert), j), Half(Halvings(invert, k - 1));
            && Transform(Evens(x), tw, invert)[j] == Eval(Evens(x), z).Scale(g)
            && Transform(Odds(x), tw, invert)[j] == Eval(Odds(x), z).Scale(g) ==>
              var y, w := Transform(x, tw, invert), Twiddle(tw, |x|, invert);
              && y[j] == Eval(x, Pow(w, j)).Scale(Half(Halvings(invert, k)))
              && y[j + h] == Eval(x, Pow(w, j + h)).Scale(Half(Halvings(invert, k)))
  {
    hide Complex.Times, Complex.Norm2, Complex.Scale, Settled, Upper, Lower;
    hide Transform, Eval, Pow, Evens, Odds, Twiddle, HalfTurn, Twiddles, Half, Halvings;
    var w := Twiddle(tw, |x|, invert);
    TwiddleLevel(tw, invert, k);
    TransformStep(x, tw, invert, h, j);
    BinFromHalves(x, w, k, j);
    var z := Pow(w.Times(w), j);
    ScaledPair(Eval(Evens(x), z), Eval(Odds(x), z), Pow(w, j), invert, k);
  }

  lemma {:induction false} TransformBin(x: Signal, tw: nat -> Complex, invert: bool, k: nat, i: nat)
    requires |x| == Pow2(k) && Twiddles(tw, k) && i < |x|
    ensures Transform(x, tw, invert)[i]
            == Eval(x, Pow(Twiddle(tw, |x|, invert), i)).Scale(Half(Halvings(invert, k)))
    decreases k
  {
    hide Complex.Scale, Transform, Eval, Pow, Evens, Odds, Twiddle, Twiddles, Half, Halvings;
    if k == 0 {
      SingleBin(x, tw, invert, Pow(Twiddle(tw, |x|, invert), i));
    } else {
      var h := Pow2(k - 1);
      var j := if i < h then i else i - h;
      TwiddlesShrink(tw, k);
      TransformBin(Evens(x), tw, invert, k - 1, j);
      TransformBin(Odds(x), tw, invert, k - 1, j);
      TransformPair(x, tw, invert, k, h, j);
    }
  }

  lemma {:induction false} ScaleOver(a: Complex, g: real, n: nat)
    requires n > 0
    ensures a.Scale(g).Over(n) == a.Scale(g / n as real)
    ensures a.Scale(1.0) == a
  {
  }

  /** Main theorem: the recursive in-place transform leaves the direct sums, in either direction. */
  lemma {:induction false} TransformIsDft(x: Signal, tw: nat -> Complex, invert: bool, k: nat)
    requires |x| == Pow2(k) && Twiddles(tw, k)
    ensures Transform(x, tw, invert)
            == ScaleAll(Dft(x, Twiddle(tw, |x|, invert)), Half(Halvings(invert, k)))
  {
    hide Complex.Times, Complex.Scale;
    var w := Twiddle(tw, |x|, invert);
    forall i | 0 <= i < |x|
      ensures Transform(x, tw, invert)[i] == Dft(x, w)[i].Scale(Half(Halvings(invert, k)))
    {
      TransformBin(x, tw, invert, k, i);
      DftBin(x, w, i);
    }
  }

  lemma {:induction false} DftBin(x: Signal, w: Complex, i: nat)
    requires i < |x|
    ensures Dft(x, w)[i] == Eval(x, Pow(w, i))
  {
    hide Complex.Times;
    DirectSumIsEval(x, w, i, 0);
    TimesOne(Eval(x, Pow(w, i)));
    assert x[0..] == x;
  }
}

/** For which lengths the recursion of `simple_fft` computes a discrete Fourier transform at all. */
module FftLengths {
  import opened ComplexNumbers
  import opened Powers
  import opened Fft
  import opened FftInverse

  function Zeros(n: nat): (x: Signal)
    ensures |x| == n
  {
    seq(n, _ => ZERO)
  }

  /** 1, 0, 0, ... */
  function Impulse(n: nat): (x: Signal)
    ensures |x| == n
  {
    seq(n, i => if i == 0 then ONE else ZERO)
  }

  lemma {:induction false} ZeroButterfly(u: Complex)
    ensures Upper(ZERO, ZERO, u) == ZERO == Lower(ZERO, ZERO, u)
  {
    hide Complex.Times;
    TimesZero(u);
  }

  /** One forward level, seen at any index below twice the half length. */
  lemma {:induction false} ForwardStep(x: Signal, tw: nat -> Complex, i: nat)
    requires |x| > 1 && i < |x| / 2
    ensures var e, o := Transform(Evens(x), tw, false)[i], Transform(Odds(x), tw, false)[i];
            var u := Pow(tw(|x|), i);
            && Transform(x, tw, false)[i] == Upper(e, o, u)
            && Transform(x, tw, false)[i + |x| / 2] == Lower(e, o, u)
  {
    hide Upper, Lower, Evens, Odds, Pow;
    var b := Butterfly(Transform(Evens(x), tw, false), Transform(Odds(x), tw, false), tw(|x|), x);
    assert Transform(x, tw, false) == b;
  }

  /** The last element of an odd-length vector is never combined. */
  lemma {:induction false} OddTailUntouched(x: Signal, tw: nat -> Complex)
    requires |x| % 2 == 1
    ensures Transform(x, tw, false)[|x| - 1] == x[|x| - 1]
  {
    hide Upper, Lower, Evens, Odds, Pow;
  }

  lemma {:induction false} ZerosStay(n: nat, tw: nat -> Complex, i: nat)
    requires i < n
    ensures Transform(Zeros(n), tw, false)[i] == ZERO
    decreases n
  {
    hide Transform, Upper, Lower, Pow;
    if n % 2 == 1 && i == n - 1 {
      OddTailUntouched(Zeros(n), tw);
    } else {
      var h := n / 2;
      var j := if i < h then i else i - h;
      ForwardStep(Zeros(n), tw, j);
      assert Evens(Zeros(n)) == Zeros(h) && Odds(Zeros(n)) == Zeros(h);
      ZerosStay(h, tw, j);
      ZeroButterfly(Pow(tw(n), j));
    }
  }

  ghost predicate PowerOfTwo(n: nat) {
    exists k: nat :: Pow2(k) == n
  }

  lemma {:induction false} HalvePowerOfTwo(n: nat)
    requires n > 0 && n % 2 == 0 && PowerOfTwo(n / 2)
    ensures PowerOfTwo(n)
  {
    var k: nat :| Pow2(k) == n / 2;
    assert Pow2(k + 1) == n;
  }

  /** Away from powers of two, the transform of an impulse has a bin that is zero. */
  lemma {:induction false} ImpulseLosesBin(n: nat, tw: nat -> Complex) returns (i: nat)
    requires n > 0 && !PowerOfTwo(n)
    ensures i < n && Transform(Impulse(n), tw, false)[i] == ZERO
  {
    hide Transform, Upper, Lower, Pow, PowerOfTwo;
    if n % 2 == 1 {
      if n == 1 {
        OneIsPower();
      }
      OddTailUntouched(Impulse(n), tw);
      i := n - 1;
    } else {
      var h := n / 2;
      if PowerOfTwo(h) {
        HalvePowerOfTwo(n);
      }
      i := ImpulseLosesBin(h, tw);
      ForwardStep(Impulse(n), tw, i);
      assert Evens(Impulse(n)) == Impulse(h) && Odds(Impulse(n)) == Zeros(h);
      ZerosStay(h, tw, i);
      ZeroButterfly(Pow(tw(n), i));
    }
  }

  lemma {:induction false} OneIsPower()
    ensures PowerOfTwo(1)
  {
    assert Pow2(0) == 1;
  }

  /** Every bin of the true spectrum of an impulse is 1. */
  lemma {:induction false} ImpulseSpectrum(n: nat, w: Complex, i: nat)
    requires i < n
    ensures Dft(Impulse(n), w)[i] == ONE
  {
    hide Complex.Times;
    DftBin(Impulse(n), w, i);
    assert Impulse(n)[1..] == Zeros(n - 1);
    EvalZeros(n - 1, Pow(w, i));
    TimesZero(Pow(w, i));
    TimesZero(ONE);
  }

  lemma {:induction false} EvalZeros(n: nat, z: Complex)
    ensures Eval(Zeros(n), z) == ZERO
  {
    hide Complex.Times;
    if n > 0 {
      EvalZeros(n - 1, z);
      assert Zeros(n)[1..] == Zeros(n - 1);
      TimesZero(z);
      TimesZero(ZERO);
    }
  }

  /** The forward transform is the DFT of every signal exactly when the length is a power of two. */
  lemma {:induction false} TransformIsDftWhen(n: nat, tw: nat -> Complex)
    requires n > 0 && forall k: nat :: Pow2(k) == n ==> Twiddles(tw, k)
    ensures (forall x: Signal :: |x| == n ==> Transform(x, tw, false) == Dft(x, tw(n)))
            <==> PowerOfTwo(n)
  {
    hide Transform, Dft, Twiddles;
    if PowerOfTwo(n) {
      var k: nat :| Pow2(k) == n;
      forall x: Signal | |x| == n
        ensures Transform(x, tw, false) == Dft(x, tw(n))
      {
        ForwardIsDft(x, tw, k);
      }
    } else {
      var i := ImpulseLosesBin(n, tw);
      ImpulseSpectrum(n, tw(n), i);
      assert Transform(Impulse(n), tw, false) != Dft(Impulse(n), tw(n));
    }
  }
}

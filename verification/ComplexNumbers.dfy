/** Complex numbers over exact reals, standing for `std::complex<float>`. */
module ComplexNumbers {

  datatype Complex = Complex(re: real, im: real) {
    function Plus(z: Complex): Complex {
      Complex(re + z.re, im + z.im)
    }

    function Minus(z: Complex): Complex {
      Complex(re - z.re, im - z.im)
    }

    function Times(z: Complex): Complex {
      Complex(re * z.re - im * z.im, re * z.im + im * z.re)
    }

    function Scale(c: real): Complex {
      Complex(c * re, c * im)
    }

    function Over(n: nat): Complex
      requires n > 0
    {
      Complex(re / n as real, im / n as real)
    }

    function Conj(): Complex {
      Complex(re, -im)
    }

    /** The square of `std::abs`. */
    function Norm2(): real {
      re * re + im * im
    }
  }

  const ZERO := Complex(0.0, 0.0)
  const ONE := Complex(1.0, 0.0)
  const MINUS_ONE := Complex(-1.0, 0.0)

  function Pow(z: Complex, k: nat): Complex {
    if k == 0 then ONE else z.Times(Pow(z, k - 1))
  }

  lemma {:induction false} TimesAssoc(a: Complex, b: Complex, c: Complex)
    ensures a.Times(b).Times(c) == a.Times(b.Times(c))
  {
  }

  lemma {:induction false} TimesComm(a: Complex, b: Complex)
    ensures a.Times(b) == b.Times(a)
  {
  }

  lemma {:induction false} TimesPlus(a: Complex, b: Complex, c: Complex)
    ensures a.Times(b.Plus(c)) == a.Times(b).Plus(a.Times(c))
  {
  }

  lemma {:induction false} TimesZero(a: Complex)
    ensures a.Times(ZERO) == ZERO && a.Plus(ZERO) == a
  {
  }

  lemma {:induction false} TimesOne(a: Complex)
    ensures a.Times(ONE) == a == ONE.Times(a)
  {
  }

  /** (a b)(c d) = (a c)(b d). */
  lemma {:induction false} TimesSwap(a: Complex, b: Complex, c: Complex, d: Complex)
    ensures a.Times(b).Times(c.Times(d)) == a.Times(c).Times(b.Times(d))
  {
    hide Complex.Times;
    calc {
      a.Times(b).Times(c.Times(d));
      { TimesAssoc(a, b, c.Times(d)); TimesAssoc(b, c, d); }
      a.Times(b.Times(c).Times(d));
      { TimesComm(b, c); }
      a.Times(c.Times(b).Times(d));
      { TimesAssoc(c, b, d); TimesAssoc(a, c, b.Times(d)); }
      a.Times(c).Times(b.Times(d));
    }
  }

  lemma {:induction false} PowAdd(z: Complex, a: nat, b: nat)
    ensures Pow(z, a + b) == Pow(z, a).Times(Pow(z, b))
  {
    hide Complex.Times;
    if a == 0 {
      TimesOne(Pow(z, b));
    } else {
      PowAdd(z, a - 1, b);
      TimesAssoc(z, Pow(z, a - 1), Pow(z, b));
    }
  }

  lemma {:induction false} PowOfProduct(u: Complex, v: Complex, k: nat)
    ensures Pow(u.Times(v), k) == Pow(u, k).Times(Pow(v, k))
  {
    hide Complex.Times;
    if k == 0 {
      TimesOne(ONE);
    } else {
      PowOfProduct(u, v, k - 1);
      TimesSwap(u, v, Pow(u, k - 1), Pow(v, k - 1));
    }
  }

  lemma {:induction false} PowOfPow(z: Complex, a: nat, b: nat)
    ensures Pow(Pow(z, a), b) == Pow(z, a * b)
  {
    hide Complex.Times;
    if b == 0 {
    } else {
      PowOfPow(z, a, b - 1);
      assert a * b == a + a * (b - 1);
      PowAdd(z, a, a * (b - 1));
    }
  }

  lemma {:induction false} PowOne(k: nat)
    ensures Pow(ONE, k) == ONE
  {
    hide Complex.Times;
    if k > 0 {
      PowOne(k - 1);
      TimesOne(ONE);
    }
  }

  /** The square of z^k is the k-th power of z^2. */
  lemma {:induction false} SquareOfPow(z: Complex, k: nat)
    ensures Pow(z, k).Times(Pow(z, k)) == Pow(z.Times(z), k)
  {
    PowOfProduct(z, z, k);
  }

  lemma {:induction false} ConjPow(z: Complex, k: nat)
    ensures Pow(z, k).Conj() == Pow(z.Conj(), k)
  {
    hide Complex.Times;
    if k > 0 {
      ConjPow(z, k - 1);
      ConjTimes(z, Pow(z, k - 1));
    }
  }

  lemma {:induction false} ConjTimes(a: Complex, b: Complex)
    ensures a.Times(b).Conj() == a.Conj().Times(b.Conj())
  {
  }

  lemma {:induction false} ConjNorm2(z: Complex)
    ensures z.Conj().Norm2() == z.Norm2()
  {
  }

  lemma {:induction false} Norm2Times(a: Complex, b: Complex)
    ensures a.Times(b).Norm2() == a.Norm2() * b.Norm2()
  {
  }

  lemma {:induction false} TimesConj(z: Complex)
    ensures z.Times(z.Conj()) == Complex(z.Norm2(), 0.0)
  {
  }

  lemma {:induction false} ScaleIsTimes(a: Complex, c: real)
    ensures a.Scale(c) == Complex(c, 0.0).Times(a)
  {
  }

  lemma {:induction false} ScaleTimes(a: Complex, b: Complex, c: real)
    ensures a.Times(b.Scale(c)) == a.Times(b).Scale(c)
    ensures a.Scale(c).Times(b) == a.Times(b).Scale(c)
  {
    hide Complex.Times, Complex.Scale;
    var r := Complex(c, 0.0);
    ScaleIsTimes(a, c);
    ScaleIsTimes(b, c);
    ScaleIsTimes(a.Times(b), c);
    TimesAssoc(r, a, b);
    TimesAssoc(a, r, b);
    TimesComm(a, r);
  }

  lemma {:induction false} ScalePlus(a: Complex, b: Complex, c: real)
    ensures a.Scale(c).Plus(b.Scale(c)) == a.Plus(b).Scale(c)
    ensures a.Scale(c).Minus(b.Scale(c)) == a.Minus(b).Scale(c)
  {
  }

  lemma {:induction false} ScaleScale(a: Complex, c: real, d: real)
    ensures a.Scale(c).Scale(d) == a.Scale(d * c)
  {
  }
}

/** Ordered-field facts the solver is spared from finding again in every proof. */
module RealFacts {

  /** One product, kept apart from the sums it enters. */
  function Prod(x: real, y: real): real {
    x * y
  }

  lemma {:induction false} ProductNonNegative(a: real, b: real)
    requires a >= 0.0 && b >= 0.0
    ensures a * b >= 0.0
  {
  }

  lemma {:induction false} ProductMonotone(a: real, b: real, c: real)
    requires a <= b && c >= 0.0
    ensures a * c <= b * c
  {
    ProductNonNegative(b - a, c);
  }

  lemma {:induction false} ProductStrict(a: real, b: real, c: real)
    requires a < b && c > 0.0
    ensures a * c < b * c
  {
    assert (b - a) * c > 0.0;
  }

  lemma {:induction false} SquareInjective(a: real, b: real)
    requires a >= 0.0 && b >= 0.0 && a * a == b * b
    ensures a == b
  {
    if a < b {
      SquareStrict(a, b);
    } else if b < a {
      SquareStrict(b, a);
    }
  }

  lemma {:induction false} SquareStrict(a: real, b: real)
    requires 0.0 <= a < b
    ensures a * a < b * b
  {
    ProductStrict(0.0, b - a, b + a);
    assert (b - a) * (b + a) == b * b - a * a;
  }

  /** a <= q b gives a / b <= q, and likewise for the strict and the lower bound. */
  lemma {:induction false} QuotientBounds(a: real, b: real, q: real)
    requires b > 0.0
    ensures a <= q * b <==> a / b <= q
    ensures a < q * b <==> a / b < q
    ensures a >= q * b <==> a / b >= q
  {
    var r := a / b;
    assert r * b == a;
    if r < q {
      ProductStrict(r, q, b);
    } else if q < r {
      ProductStrict(q, r, b);
    }
  }

  /** What is used of `std::sqrt` and of the root inside STDDEV. */
  ghost predicate IsSqrt(sqrt: real -> real) {
    forall x :: x >= 0.0 ==> sqrt(x) >= 0.0 && Prod(sqrt(x), sqrt(x)) == x
  }

  /** Comparing squares compares absolute values. */
  lemma {:induction false} SquareOrder(a: real, b: real)
    requires b >= 0.0
    ensures a * a <= b * b <==> -b <= a <= b
  {
    var m := if a < 0.0 then -a else a;
    assert m * m == a * a;
    if m <= b {
      ProductMonotone(m, b, m);
      ProductMonotone(m, b, b);
      assert m * b == b * m;
    } else {
      SquareStrict(b, m);
    }
  }
}

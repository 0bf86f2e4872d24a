/** Sums and inner products of real sequences. */
module Sums {
  import opened RealFacts

  function Sum(s: seq<real>): real {
    if s == [] then 0.0 else Sum(s[..|s| - 1]) + s[|s| - 1]
  }

  function Dot(a: seq<real>, b: seq<real>): real
    requires |a| == |b|
  {
    if a == [] then 0.0 else Dot(a[..|a| - 1], b[..|b| - 1]) + Prod(a[|a| - 1], b[|b| - 1])
  }

  function Mean(s: seq<real>): real
    requires s != []
  {
    Sum(s) / |s| as real
  }

  /** Every element less `m`. */
  function Deviations(s: seq<real>, m: real): (d: seq<real>)
    ensures |d| == |s|
  {
    seq(|s|, i requires 0 <= i < |s| => s[i] - m)
  }

  /** The spread of `s` about `m`: the sum of (s[i] - m)^2. */
  function Spread(s: seq<real>, m: real): real {
    Dot(Deviations(s, m), Deviations(s, m))
  }

  lemma {:induction false} SumConcat(a: seq<real>, b: seq<real>)
    ensures Sum(a + b) == Sum(a) + Sum(b)
  {
    if b == [] {
      assert a + b == a;
    } else {
      SumConcat(a, b[..|b| - 1]);
      assert (a + b)[..|a + b| - 1] == a + b[..|b| - 1];
    }
  }

  lemma {:induction false} DotConcat(a: seq<real>, b: seq<real>, c: seq<real>, d: seq<real>)
    requires |a| == |b| && |c| == |d|
    ensures Dot(a + c, b + d) == Dot(a, b) + Dot(c, d)
  {
    if c == [] {
      assert a + c == a && b + d == b;
    } else {
      DotConcat(a, b, c[..|c| - 1], d[..|d| - 1]);
      assert (a + c)[..|a + c| - 1] == a + c[..|c| - 1];
      assert (b + d)[..|b + d| - 1] == b + d[..|d| - 1];
    }
  }

  lemma {:induction false} DeviationSum(s: seq<real>, m: real)
    ensures Sum(Deviations(s, m)) == Sum(s) - |s| as real * m
  {
    if s != [] {
      DeviationSum(s[..|s| - 1], m);
      assert Deviations(s, m)[..|s| - 1] == Deviations(s[..|s| - 1], m);
    }
  }

  /** What the squares expand to, from the sums of squares `q` and of values `t`. */
  function Expanded(q: real, t: real, n: real, m: real): real {
    q - 2.0 * m * t + n * (m * m)
  }

  /** Expanding the squares: the spread about `m` from the plain sums. */
  lemma {:induction false} SpreadExpanded(s: seq<real>, m: real)
    ensures Spread(s, m) == Expanded(Dot(s, s), Sum(s), |s| as real, m)
  {
    hide Prod, Expanded;
    if s == [] {
      ExpandedStep(0.0, 0.0, 0.0, m, 0.0);
    } else {
      var front, x := s[..|s| - 1], s[|s| - 1];
      SpreadExpanded(front, m);
      assert Deviations(s, m)[..|s| - 1] == Deviations(front, m);
      assert Sum(s) == Sum(front) + x && Dot(s, s) == Dot(front, front) + Prod(x, x);
      ExpandedStep(Dot(front, front), Sum(front), |front| as real, m, x);
    }
  }

  lemma {:induction false} ExpandedStep(q: real, t: real, n: real, m: real, x: real)
    ensures Expanded(q, t, n, m) + Prod(x - m, x - m) == Expanded(q + Prod(x, x), t + x, n + 1.0, m)
    ensures Expanded(0.0, 0.0, 0.0, m) == 0.0
  {
  }

  ghost predicate AllZero(d: seq<real>) {
    forall i :: 0 <= i < |d| ==> d[i] == 0.0
  }

  lemma {:induction false} DotSelf(d: seq<real>)
    ensures if AllZero(d) then Dot(d, d) == 0.0 else Dot(d, d) > 0.0
  {
    hide Prod;
    if d != [] {
      var front, x := d[..|d| - 1], d[|d| - 1];
      DotSelf(front);
      assert AllZero(d) <==> AllZero(front) && x == 0.0;
      if x == 0.0 {
        ZeroProduct(x);
      } else {
        SquarePositive(x);
      }
    }
  }

  lemma {:induction false} SquarePositive(x: real)
    requires x != 0.0
    ensures Prod(x, x) > 0.0
  {
    SameSigns(x, x);
  }

  lemma {:induction false} SameSigns(x: real, y: real)
    requires (x > 0.0 && y > 0.0) || (x < 0.0 && y < 0.0)
    ensures Prod(x, y) > 0.0
  {
  }

  lemma {:induction false} ZeroProduct(x: real)
    ensures Prod(x, 0.0) == 0.0
  {
  }

  lemma {:induction false} DotSymmetric(a: seq<real>, b: seq<real>)
    requires |a| == |b|
    ensures Dot(a, b) == Dot(b, a)
  {
    if a != [] {
      DotSymmetric(a[..|a| - 1], b[..|b| - 1]);
    }
  }

  function Blend(p: real, x: real, q: real, y: real): real {
    p * x + q * y
  }

  /** p u + q v, element by element. */
  function Mix(p: real, u: seq<real>, q: real, v: seq<real>): (c: seq<real>)
    requires |u| == |v|
    ensures |c| == |u|
  {
    seq(|u|, i requires 0 <= i < |u| => Blend(p, u[i], q, v[i]))
  }

  function QuadraticForm(p: real, q: real, a: real, n: real, b: real): real {
    p * p * a + 2.0 * (p * q) * n + q * q * b
  }

  lemma {:induction false} DotOfMix(p: real, u: seq<real>, q: real, v: seq<real>)
    requires |u| == |v|
    ensures Dot(Mix(p, u, q, v), Mix(p, u, q, v))
            == QuadraticForm(p, q, Dot(u, u), Dot(u, v), Dot(v, v))
  {
    hide Blend, QuadraticForm, Prod;
    if u == [] {
      EmptyForm(p, q);
    } else {
      var u', v', m := u[..|u| - 1], v[..|v| - 1], Mix(p, u, q, v);
      var x, y := u[|u| - 1], v[|v| - 1];
      DotOfMix(p, u', q, v');
      assert m[..|m| - 1] == Mix(p, u', q, v') && m[|m| - 1] == Blend(p, x, q, y);
      SquareOfBlend(p, x, q, y, Dot(u', u'), Dot(u', v'), Dot(v', v'));
      assert Dot(u, u) == Dot(u', u') + Prod(x, x) && Dot(u, v) == Dot(u', v') + Prod(x, y);
      assert Dot(v, v) == Dot(v', v') + Prod(y, y);
    }
  }

  lemma {:induction false} EmptyForm(p: real, q: real)
    ensures QuadraticForm(p, q, 0.0, 0.0, 0.0) == 0.0
  {
  }

  lemma {:induction false} SquareOfBlend(p: real, x: real, q: real, y: real, a: real, n: real, b: real)
    ensures QuadraticForm(p, q, a, n, b) + Prod(Blend(p, x, q, y), Blend(p, x, q, y))
            == QuadraticForm(p, q, a + Prod(x, x), n + Prod(x, y), b + Prod(y, y))
  {
  }

  /**
   * Cauchy-Schwarz, with its equality case: the gap is the squared length of b u - n v, scaled.
   */
  lemma {:induction false} CauchySchwarz(u: seq<real>, v: seq<real>)
    requires |u| == |v|
    ensures Prod(Dot(u, v), Dot(u, v)) <= Prod(Dot(u, u), Dot(v, v))
    ensures Dot(v, v) > 0.0 ==>
              (Prod(Dot(u, v), Dot(u, v)) == Prod(Dot(u, u), Dot(v, v))
               <==> forall i :: 0 <= i < |u| ==> Dot(v, v) * u[i] == Dot(u, v) * v[i])
  {
    hide Dot, Blend, QuadraticForm, Prod;
    var a, n, b := Dot(u, u), Dot(u, v), Dot(v, v);
    DotSelf(v);
    if b == 0.0 {
      DotWithZero(u, v);
      ZeroProduct(n);
      ZeroProduct(a);
    } else {
      var gap := Mix(b, u, -n, v);
      DotOfMix(b, u, -n, v);
      DotSelf(gap);
      GapFactor(a, n, b, Dot(gap, gap));
      forall i | 0 <= i < |u|
        ensures gap[i] == 0.0 <==> b * u[i] == n * v[i]
      {
        BlendIsZero(b, u[i], n, v[i]);
      }
    }
  }

  lemma {:induction false} DotWithZero(u: seq<real>, v: seq<real>)
    requires |u| == |v| && forall i :: 0 <= i < |v| ==> v[i] == 0.0
    ensures Dot(u, v) == 0.0
  {
    if u != [] {
      DotWithZero(u[..|u| - 1], v[..|v| - 1]);
    }
  }

  lemma {:induction false} BlendIsZero(b: real, x: real, n: real, y: real)
    ensures Blend(b, x, -n, y) == 0.0 <==> b * x == n * y
  {
  }

  lemma {:induction false} GapFactor(a: real, n: real, b: real, g: real)
    requires b > 0.0 && g >= 0.0
    requires g == QuadraticForm(b, -n, a, n, b)
    ensures Prod(n, n) <= Prod(a, b) && (Prod(n, n) == Prod(a, b) <==> g == 0.0)
  {
    var d := a * b - n * n;
    assert g == b * d;
    if d < 0.0 {
      ProductStrict(d, 0.0, b);
    } else if d > 0.0 {
      ProductStrict(0.0, d, b);
    }
  }
}

/** Powers of two, and of reals. */
module Powers {

  function Pow2(k: nat): (r: nat)
    ensures r > 0
  {
    if k == 0 then 1 else 2 * Pow2(k - 1)
  }

  lemma {:induction false} Pow2Sum(a: nat, b: nat)
    ensures Pow2(a + b) == Pow2(a) * Pow2(b)
  {
    if a > 0 {
      Pow2Sum(a - 1, b);
      assert Pow2(a + b) == 2 * Pow2(a - 1 + b);
    }
  }

  lemma {:induction false} Pow2Monotone(a: nat, b: nat)
    requires a < b
    ensures Pow2(a) < Pow2(b)
    decreases b
  {
    if a + 1 < b {
      Pow2Monotone(a, b - 1);
    }
    assert Pow2(b) == 2 * Pow2(b - 1);
  }

  /** 1 / 2^k. */
  function Half(k: nat): (r: real)
    ensures r > 0.0
  {
    if k == 0 then 1.0 else Half(k - 1) / 2.0
  }

  lemma {:induction false} HalfOver(a: nat, b: nat)
    ensures Half(a + b) == Half(a) / Pow2(b) as real
  {
    if b > 0 {
      HalfOver(a, b - 1);
      assert Half(a + b) == Half(a + (b - 1)) / 2.0;
      DivideTwice(Half(a), Pow2(b - 1) as real);
    }
  }

  lemma {:induction false} DivideTwice(x: real, p: real)
    requires p > 0.0
    ensures x / p / 2.0 == x / (2.0 * p)
  {
  }
}

/** Unsigned 64-bit words: wrap-around and masking. */
module Words {
  import opened Powers

  /** 2^64, the modulus of `size_t`. */
  const WORD: nat := 0x1_0000_0000_0000_0000

  type Word = w: nat | w < WORD

  lemma {:induction false} WordIsPow2()
    ensures WORD == Pow2(64)
  {
    hide Pow2;
    SmallPower();
    Pow2Square(4, 0x10);
    Pow2Square(8, 0x100);
    Pow2Square(16, 0x1_0000);
    Pow2Square(32, 0x1_0000_0000);
  }

  lemma {:induction false} PowerBelowWord(k: nat)
    requires k < 64
    ensures Pow2(k) < WORD
  {
    hide Pow2;
    WordIsPow2();
    Pow2Monotone(k, 64);
  }

  lemma {:induction false} SmallPower()
    ensures Pow2(4) == 16
  {
  }

  lemma {:induction false} Pow2Square(k: nat, v: nat)
    requires Pow2(k) == v
    ensures Pow2(2 * k) == v * v
  {
    hide Pow2;
    Pow2Sum(k, k);
  }

  /** A result stored in a `size_t`. */
  function ToWord(i: int): (r: nat)
    ensures r < WORD
  {
    i % WORD
  }

  /** The slot of an index that never wraps. */
  function Residue(i: nat, m: nat): (r: nat)
    requires m > 0
    ensures r < m
  {
    i % m
  }

  /** The bitwise `&`. */
  function BitAnd(a: nat, b: nat): nat {
    if a == 0 || b == 0 then 0
    else 2 * BitAnd(a / 2, b / 2) + (if a % 2 == 1 && b % 2 == 1 then 1 else 0)
  }

  lemma {:induction false} MaskIsRemainder(x: nat, k: nat)
    ensures BitAnd(x, Pow2(k) - 1) == x % Pow2(k)
  {
    if k > 0 {
      MaskIsRemainder(x / 2, k - 1);
      MaskStep(x, Pow2(k - 1));
    }
  }

  lemma {:induction false} MaskStep(x: nat, m: nat)
    requires m > 0 && BitAnd(x / 2, m - 1) == x / 2 % m
    ensures BitAnd(x, 2 * m - 1) == x % (2 * m)
  {
    assert (2 * m - 1) / 2 == m - 1 && (2 * m - 1) % 2 == 1;
    RemainderOfDouble(x, m);
  }

  lemma {:induction false} RemainderOfDouble(x: nat, m: nat)
    requires m > 0
    ensures x % (2 * m) == 2 * (x / 2 % m) + x % 2
  {
    var q := x / 2 / m;
    assert x / 2 == q * m + x / 2 % m;
    assert x == q * (2 * m) + (2 * (x / 2 % m) + x % 2);
    RemainderUnique(x, 2 * m, q, 2 * (x / 2 % m) + x % 2);
  }

  lemma {:induction false} RemainderUnique(x: int, m: int, q: int, r: int)
    requires m > 0 && x == q * m + r && 0 <= r < m
    ensures x % m == r && x / m == q
  {
    var d := x / m - q;
    assert d * m == r - x % m;
  }

  /** Reducing modulo a multiple first changes no remainder. */
  lemma {:induction false} RemainderOfRemainder(x: nat, m: nat, c: nat)
    requires m > 0 && c > 0
    ensures x % (m * c) % m == x % m
  {
    var y, q := x % (m * c), x / (m * c);
    assert x == (q * c) * m + y;
    assert y == y / m * m + y % m;
    assert x == (q * c + y / m) * m + y % m;
    RemainderUnique(x, m, q * c + y / m, y % m);
  }

  /** Two indices less than `m` apart fall into the same slot only if they are equal. */
  lemma {:induction false} DistinctRemainders(i: nat, j: nat, m: nat)
    requires i < j < i + m
    ensures Residue(i, m) != Residue(j, m)
  {
    var r := i % m + (j - i);
    if r < m {
      RemainderUnique(j, m, i / m, r);
    } else {
      RemainderUnique(j, m, i / m + 1, r - m);
    }
  }

  /** Subtracting two reduced counters gives back their distance. */
  lemma {:induction false} WrappedDistance(w: nat, r: nat, m: nat)
    requires r <= w < r + m
    ensures (w % m - r % m) % m == w - r
    ensures w % m == r % m <==> w == r
  {
    var q := r / m - w / m;
    assert w == w / m * m + w % m && r == r / m * m + r % m;
    assert w % m - r % m == q * m + (w - r);
    RemainderUnique(w % m - r % m, m, q, w - r);
  }

  lemma {:induction false} WrappedNext(x: nat, m: nat)
    requires m > 0
    ensures (x % m + 1) % m == (x + 1) % m
  {
    var r := x % m + 1;
    assert x == x / m * m + x % m;
    if r < m {
      RemainderUnique(r, m, 0, r);
      RemainderUnique(x + 1, m, x / m, r);
    } else {
      RemainderUnique(r, m, 1, 0);
      assert x + 1 == (x / m + 1) * m + 0;
      RemainderUnique(x + 1, m, x / m + 1, 0);
    }
  }

  lemma {:induction false} WordDistance(w: nat, r: nat)
    requires r <= w < r + WORD
    ensures ToWord(ToWord(w) - ToWord(r)) == w - r
    ensures ToWord(w) == ToWord(r) <==> w == r
  {
    WrappedDistance(w, r, WORD);
  }

  lemma {:induction false} WordDifference(x: nat, y: nat)
    requires x < WORD && y < WORD
    ensures ToWord(x - y) == if y <= x then x - y else x - y + WORD
  {
    hide Pow2;
    if y <= x {
      RemainderUnique(x - y, WORD, 0, x - y);
    } else {
      RemainderUnique(x - y, WORD, -1, x - y + WORD);
    }
  }

  lemma {:induction false} WordNext(x: nat)
    ensures ToWord(ToWord(x) + 1) == ToWord(x + 1)
  {
    WrappedNext(x, WORD);
  }

  lemma {:induction false} WordOf(x: nat)
    ensures x < WORD ==> ToWord(x) == x
    ensures WORD <= x < 2 * WORD ==> ToWord(x) == x - WORD
    ensures ToWord(WORD) == 0
  {
    hide Pow2;
    RemainderUnique(WORD, WORD, 1, 0);
    if WORD <= x < 2 * WORD {
      RemainderUnique(x, WORD, 1, x - WORD);
    }
    if x < WORD {
      RemainderUnique(x, WORD, 0, x);
    }
  }

  /** Masking a wrapped index selects the slot of the unbounded one. */
  lemma {:induction false} WordSlot(x: nat, k: nat)
    requires k <= 64
    ensures BitAnd(ToWord(x), Pow2(k) - 1) == Residue(x, Pow2(k))
  {
    WordIsPow2();
    MaskIsRemainder(x % WORD, k);
    Pow2Sum(k, 64 - k);
    RemainderOfRemainder(x, Pow2(k), Pow2(64 - k));
  }
}

/**
 * The 16-lane kernels of core/avx512_math.cpp and the scalar `array_variance` of
 * db/functions/calculate_variance.sql, all against the same plain sums.
 */
module VectorMath {
  import opened Options
  import opened RealFacts
  import opened Sums

  const LANES := 16

  /** An `__m512` register. */
  type Lanes = v: seq<real> | |v| == LANES witness seq(LANES, _ => 0.0)

  function Broadcast(x: real): Lanes {
    seq(LANES, _ => x)
  }

  function LaneAdd(a: Lanes, b: Lanes): Lanes {
    seq(LANES, j requires 0 <= j < LANES => a[j] + b[j])
  }

  function LaneSub(a: Lanes, b: Lanes): Lanes {
    seq(LANES, j requires 0 <= j < LANES => a[j] - b[j])
  }

  /** Fused multiply-add, a b + c. */
  function LaneFmadd(a: Lanes, b: Lanes, c: Lanes): Lanes {
    seq(LANES, j requires 0 <= j < LANES => Prod(a[j], b[j]) + c[j])
  }

  // ---------------------------------------------------------------- lanes against sums

  lemma {:induction false} SumOfLanes(a: seq<real>, b: seq<real>, c: seq<real>)
    requires |a| == |b| == |c| && forall j :: 0 <= j < |a| ==> c[j] == a[j] + b[j]
    ensures Sum(c) == Sum(a) + Sum(b)
  {
    if a != [] {
      SumOfLanes(a[..|a| - 1], b[..|b| - 1], c[..|c| - 1]);
    }
  }

  lemma {:induction false} SumOfFmadd(a: seq<real>, b: seq<real>, c: seq<real>, d: seq<real>)
    requires |a| == |b| == |c| == |d|
    requires forall j :: 0 <= j < |a| ==> d[j] == Prod(a[j], b[j]) + c[j]
    ensures Sum(d) == Dot(a, b) + Sum(c)
  {
    hide Prod;
    if a != [] {
      SumOfFmadd(a[..|a| - 1], b[..|b| - 1], c[..|c| - 1], d[..|d| - 1]);
    }
  }

  lemma {:induction false} SumOfZeros(s: seq<real>)
    requires AllZero(s)
    ensures Sum(s) == 0.0
  {
    if s != [] {
      SumOfZeros(s[..|s| - 1]);
    }
  }

  /** Taking the next block of `m` elements splits every prefix sum. */
  lemma {:induction false} NextBlock(a: seq<real>, b: seq<real>, i: nat, m: nat)
    requires |a| == |b| && i + m <= |a|
    ensures Sum(a[..i + m]) == Sum(a[..i]) + Sum(a[i..i + m])
    ensures Dot(a[..i + m], b[..i + m]) == Dot(a[..i], b[..i]) + Dot(a[i..i + m], b[i..i + m])
  {
    assert a[..i + m] == a[..i] + a[i..i + m] && b[..i + m] == b[..i] + b[i..i + m];
    SumConcat(a[..i], a[i..i + m]);
    DotConcat(a[..i], b[..i], a[i..i + m], b[i..i + m]);
  }

  /** One more element of the scalar tail. */
  lemma {:induction false} NextElement(a: seq<real>, b: seq<real>, i: nat)
    requires |a| == |b| && i < |a|
    ensures Sum(a[..i + 1]) == Sum(a[..i]) + a[i]
    ensures Dot(a[..i + 1], b[..i + 1]) == Dot(a[..i], b[..i]) + Prod(a[i], b[i])
  {
    assert a[..i + 1][..i] == a[..i] && b[..i + 1][..i] == b[..i];
  }

  // ---------------------------------------------------------------- the kernels

  /** The scalar loop from index `start` on: the short-input path, and the tail of the blocks. */
  method SumFrom(data: array<real>, start: nat, before: real) returns (total: real)
    requires start <= data.Length && before == Sum(data[..start])
    ensures total == Sum(data[..])
  {
    ghost var s := data[..];
    total := before;
    for i := start to data.Length
      invariant total == Sum(s[..i])
    {
      NextElement(s, s, i);
      total := total + data[i];
    }
    assert s[..|s|] == s;
  }

  /** Blocks of 16 into the lanes, one reduction, then the tail. */
  method TotalSum(data: array<real>) returns (total: real)
    ensures total == Sum(data[..])
  {
    if data.Length < LANES {
      total := SumFrom(data, 0, 0.0);
      return;
    }
    ghost var s := data[..];
    var sumVec := Broadcast(0.0);
    SumOfZeros(sumVec);
    var i := 0;
    while i <= data.Length - LANES
      invariant i <= data.Length
      invariant Sum(sumVec) == Sum(s[..i])
    {
      var chunk: Lanes := data[i..i + LANES];
      NextBlock(s, s, i, LANES);
      SumOfLanes(sumVec, chunk, LaneAdd(sumVec, chunk));
      sumVec := LaneAdd(sumVec, chunk);
      i := i + LANES;
    }
    assert s[..i] == data[..i];
    total := SumFrom(data, i, Sum(sumVec));
  }

  method MeanAvx512(data: array<real>) returns (mean: real)
    requires data.Length > 0
    ensures mean == Mean(data[..])
  {
    var total := TotalSum(data);
    mean := total / data.Length as real;
  }

  method ProductsFrom(a: array<real>, b: array<real>, start: nat, before: real)
    returns (total: real)
    requires a.Length == b.Length && start <= a.Length && before == Dot(a[..start], b[..start])
    ensures total == Dot(a[..], b[..])
  {
    hide Prod;
    ghost var s, t := a[..], b[..];
    total := before;
    for i := start to a.Length
      invariant total == Dot(s[..i], t[..i])
    {
      NextElement(s, t, i);
      total := total + Prod(a[i], b[i]);
    }
    assert s[..|s|] == s && t[..|t|] == t;
  }

  method DotProductAvx512(a: array<real>, b: array<real>) returns (result: real)
    requires a.Length == b.Length
    ensures result == Dot(a[..], b[..])
  {
    hide Prod;
    if a.Length < LANES {
      result := ProductsFrom(a, b, 0, 0.0);
      return;
    }
    ghost var s, t := a[..], b[..];
    var sumVec := Broadcast(0.0);
    SumOfZeros(sumVec);
    var i := 0;
    while i <= a.Length - LANES
      invariant i <= a.Length
      invariant Sum(sumVec) == Dot(s[..i], t[..i])
    {
      var aVec: Lanes, bVec: Lanes := a[i..i + LANES], b[i..i + LANES];
      NextBlock(s, t, i, LANES);
      SumOfFmadd(aVec, bVec, sumVec, LaneFmadd(aVec, bVec, sumVec));
      sumVec := LaneFmadd(aVec, bVec, sumVec);
      i := i + LANES;
    }
    assert s[..i] == a[..i] && t[..i] == b[..i];
    result := ProductsFrom(a, b, i, Sum(sumVec));
  }

  function Variance(s: seq<real>): real
    requires s != []
  {
    Spread(s, Mean(s)) / |s| as real
  }

  method SquaresFrom(data: array<real>, mean: real, start: nat, before: real)
    returns (total: real)
    requires start <= data.Length
    requires before == Spread(data[..start], mean)
    ensures total == Spread(data[..], mean)
  {
    hide Prod, Dot;
    ghost var d := Deviations(data[..], mean);
    assert d[..start] == Deviations(data[..start], mean);
    total := before;
    for i := start to data.Length
      invariant total == Dot(d[..i], d[..i])
    {
      var diff := data[i] - mean;
      NextElement(d, d, i);
      total := total + Prod(diff, diff);
    }
    assert d[..|d|] == d;
  }

  /** The block loop of the second pass; `i` is where the tail starts. */
  method BlockSquares(data: array<real>, mean: real) returns (total: real, i: nat)
    requires data.Length >= LANES
    ensures i <= data.Length < i + LANES && total == Spread(data[..i], mean)
  {
    hide Prod, Dot;
    ghost var d := Deviations(data[..], mean);
    var meanVec := Broadcast(mean);
    var varianceVec := Broadcast(0.0);
    SumOfZeros(varianceVec);
    DotOfNothing(d[..0]);
    i := 0;
    while i <= data.Length - LANES
      invariant i <= data.Length
      invariant Sum(varianceVec) == Dot(d[..i], d[..i])
    {
      var diff := LaneSub(data[i..i + LANES], meanVec);
      assert diff == d[i..i + LANES];
      NextBlock(d, d, i, LANES);
      SumOfFmadd(diff, diff, varianceVec, LaneFmadd(diff, diff, varianceVec));
      varianceVec := LaneFmadd(diff, diff, varianceVec);
      i := i + LANES;
    }
    total := Sum(varianceVec);
    assert d[..i] == Deviations(data[..i], mean);
  }

  lemma {:induction false} DotOfNothing(s: seq<real>)
    requires s == []
    ensures Dot(s, s) == 0.0
  {
  }

  method VarianceAvx512(data: array<real>) returns (variance: real)
    requires data.Length > 0
    ensures variance == Variance(data[..])
  {
    hide Prod, Dot, Sum;
    var n := data.Length as real;
    var total := TotalSum(data);
    var mean := total / n;
    var squares;
    if data.Length < LANES {
      DotOfNothing(Deviations(data[..0], mean));
      squares := SquaresFrom(data, mean, 0, 0.0);
    } else {
      var i;
      squares, i := BlockSquares(data, mean);
      squares := SquaresFrom(data, mean, i, squares);
    }
    variance := squares / n;
  }

  /** `array_variance`: NULL for an empty array, else two passes. */
  method ArrayVariance(arr: seq<real>) returns (variance: Option<real>)
    ensures variance == if arr == [] then None else Some(Variance(arr))
  {
    hide Prod;
    if |arr| == 0 {
      return None;
    }
    var mean := Mean(arr);
    ghost var d := Deviations(arr, mean);
    var sumSq := 0.0;
    for i := 0 to |arr|
      invariant sumSq == Dot(d[..i], d[..i])
    {
      NextElement(d, d, i);
      sumSq := sumSq + Prod(arr[i] - mean, arr[i] - mean);
    }
    assert d[..|d|] == d;
    return Some(sumSq / |arr| as real);
  }

  // ---------------------------------------------------------------- what the variance means

  /** Mean of squares less squared mean. */
  lemma {:induction false} VarianceIsMeanOfSquares(s: seq<real>)
    requires s != []
    ensures Variance(s) == Dot(s, s) / |s| as real - Mean(s) * Mean(s)
  {
    hide Prod, Dot, Sum, Spread, Expanded;
    SpreadExpanded(s, Mean(s));
    DivideOut(Sum(s), |s| as real, Dot(s, s));
  }

  lemma {:induction false} DivideOut(t: real, n: real, q: real)
    requires n > 0.0
    ensures var m := t / n; Expanded(q, t, n, m) / n == q / n - m * m
  {
    var m := t / n;
    assert t == m * n;
    assert m * t == n * (m * m);
    assert Expanded(q, t, n, m) == q - n * (m * m);
    DivideDifference(q, m * m, n);
  }

  lemma {:induction false} DivideDifference(q: real, x: real, n: real)
    requires n > 0.0
    ensures (q - n * x) / n == q / n - x
  {
    var r := q / n;
    assert q == r * n;
    assert q - n * x == (r - x) * n;
  }

  ghost predicate Constant(s: seq<real>) {
    forall i, j :: 0 <= i < j < |s| ==> s[i] == s[j]
  }

  /** Never negative, and zero exactly for constant data. */
  lemma {:induction false} VarianceSign(s: seq<real>)
    requires s != []
    ensures Variance(s) >= 0.0
    ensures Variance(s) == 0.0 <==> Constant(s)
  {
    hide Mean, Dot, Prod;
    var d := Deviations(s, Mean(s));
    DotSelf(d);
    QuotientSign(Dot(d, d), |s| as real);
    if Constant(s) {
      MeanOfConstant(s, s[0]);
    }
    if AllZero(d) {
      forall i | 0 <= i < |s|
        ensures s[i] == Mean(s)
      {
        assert d[i] == 0.0;
      }
    }
  }

  lemma {:induction false} QuotientSign(a: real, n: real)
    requires a >= 0.0 && n > 0.0
    ensures a / n >= 0.0
    ensures a / n == 0.0 <==> a == 0.0
  {
    QuotientBounds(a, n, 0.0);
  }

  lemma {:induction false} SumOfConstant(s: seq<real>, c: real)
    requires forall i :: 0 <= i < |s| ==> s[i] == c
    ensures Sum(s) == |s| as real * c
  {
    if s != [] {
      SumOfConstant(s[..|s| - 1], c);
    }
  }

  lemma {:induction false} MeanOfConstant(s: seq<real>, c: real)
    requires s != [] && forall i :: 0 <= i < |s| ==> s[i] == c
    ensures Mean(s) == c
  {
    hide Sum;
    SumOfConstant(s, c);
    CancelCount(|s| as real, c);
  }

  lemma {:induction false} CancelCount(n: real, c: real)
    requires n > 0.0
    ensures n * c / n == c
  {
  }

  /** Adding a constant to every sample changes nothing. */
  lemma {:induction false} VarianceOfShift(s: seq<real>, c: real)
    requires s != []
    ensures Variance(Deviations(s, c)) == Variance(s)
  {
    var t := Deviations(s, c);
    DeviationSum(s, c);
    MeanOfShift(Sum(s), |s| as real, c);
    assert Mean(t) == Mean(s) - c;
    assert Deviations(t, Mean(t)) == Deviations(s, Mean(s));
  }

  lemma {:induction false} MeanOfShift(t: real, n: real, c: real)
    requires n > 0.0
    ensures (t - n * c) / n == t / n - c
  {
  }

  // ---------------------------------------------------------------- zero crossings

  /** The sign step: a sample counts as positive from zero up. */
  predicate Positive(x: real) {
    x >= 0.0
  }

  /** Adjacent pairs of samples with different signs. */
  function Crossings(s: seq<real>): nat {
    if |s| < 2 then 0
    else Crossings(s[..|s| - 1])
         + (if Positive(s[|s| - 2]) != Positive(s[|s| - 1]) then 1 else 0)
  }

  /** From below zero to at least zero, or back. */
  predicate TurnsAt(s: seq<real>, i: nat)
    requires 0 < i < |s|
  {
    (s[i] >= 0.0 && s[i - 1] < 0.0) || (s[i] < 0.0 && s[i - 1] >= 0.0)
  }

  function SignChanges(s: seq<real>): set<nat> {
    set i: nat | 0 < i < |s| && TurnsAt(s, i)
  }

  lemma {:induction false} CrossingsAreSignChanges(s: seq<real>)
    ensures Crossings(s) == |SignChanges(s)|
  {
    if |s| >= 2 {
      var m := |s| - 1;
      CrossingsAreSignChanges(s[..m]);
      var before := SignChanges(s[..m]);
      if Positive(s[m - 1]) != Positive(s[m]) {
        assert SignChanges(s) == before + {m} && m !in before;
      } else {
        assert SignChanges(s) == before;
      }
    } else {
      assert SignChanges(s) == {};
    }
  }

  function PopCount(mask: seq<bool>): nat {
    if mask == [] then 0
    else PopCount(mask[..|mask| - 1]) + (if mask[|mask| - 1] then 1 else 0)
  }

  /** Comparing two registers for different signs, lane by lane. */
  function SignChange(prev: seq<real>, curr: seq<real>): (mask: seq<bool>)
    requires |prev| == |curr|
    ensures |mask| == |curr|
  {
    seq(|curr|, j requires 0 <= j < |curr| => Positive(prev[j]) != Positive(curr[j]))
  }

  lemma {:induction false} NextCrossing(s: seq<real>, j: nat)
    requires 0 < j < |s|
    ensures Crossings(s[..j + 1])
            == Crossings(s[..j]) + (if Positive(s[j - 1]) != Positive(s[j]) then 1 else 0)
  {
    assert s[..j + 1][..j] == s[..j];
  }

  /** A shifted block counts exactly the pairs that end in it. */
  lemma {:induction false} CrossingsOfBlock(s: seq<real>, i: nat, m: nat)
    requires 0 < i && i + m <= |s|
    ensures Crossings(s[..i + m])
            == Crossings(s[..i]) + PopCount(SignChange(s[i - 1..i + m - 1], s[i..i + m]))
  {
    hide Crossings, Positive;
    if m == 0 {
      assert s[..i + m] == s[..i];
    } else {
      CrossingsOfBlock(s, i, m - 1);
      NextCrossing(s, i + (m - 1));
      var mask := SignChange(s[i - 1..i + m - 1], s[i..i + m]);
      assert mask[..m - 1] == SignChange(s[i - 1..i + m - 2], s[i..i + m - 1]);
    }
  }

  lemma {:induction false} CrossingsBound(s: seq<real>)
    requires s != []
    ensures Crossings(s) <= |s| - 1
  {
    if |s| > 1 {
      CrossingsBound(s[..|s| - 1]);
    }
  }

  method CrossingsFrom(data: array<real>, start: nat, before: nat) returns (crossings: nat)
    requires 1 <= start <= data.Length && before == Crossings(data[..start])
    ensures crossings == Crossings(data[..])
  {
    ghost var s := data[..];
    crossings := before;
    for i := start to data.Length
      invariant crossings == Crossings(s[..i])
    {
      assert s[..i + 1][..i] == s[..i];
      if (data[i] >= 0.0 && data[i - 1] < 0.0) || (data[i] < 0.0 && data[i - 1] >= 0.0) {
        crossings := crossings + 1;
      }
    }
    assert s[..|s|] == s;
  }

  method CountCrossings(data: array<real>) returns (crossings: nat)
    requires data.Length > 0
    ensures crossings == Crossings(data[..])
  {
    if data.Length < LANES {
      crossings := CrossingsFrom(data, 1, 0);
      return;
    }
    ghost var s := data[..];
    crossings := 0;
    var i := 1;
    while i <= data.Length - LANES
      invariant 1 <= i <= data.Length
      invariant crossings == Crossings(s[..i])
    {
      var prev, curr := data[i - 1..i - 1 + LANES], data[i..i + LANES];
      CrossingsOfBlock(s, i, LANES);
      crossings := crossings + PopCount(SignChange(prev, curr));
      i := i + LANES;
    }
    assert s[..i] == data[..i];
    crossings := CrossingsFrom(data, i, crossings);
  }

  method ZcrAvx512(data: array<real>) returns (rate: real)
    requires data.Length > 0
    ensures rate == Crossings(data[..]) as real / data.Length as real
    ensures 0.0 <= rate < 1.0
  {
    hide Crossings;
    var crossings := CountCrossings(data);
    CrossingsBound(data[..]);
    rate := crossings as real / data.Length as real;
    QuotientBounds(crossings as real, data.Length as real, 0.0);
    QuotientBounds(crossings as real, data.Length as real, 1.0);
  }

  /** The count is odd exactly when the signal ends on the other side from where it started. */
  lemma {:induction false} CrossingParity(s: seq<real>)
    requires s != []
    ensures Crossings(s) % 2 == 1 <==> Positive(s[0]) != Positive(s[|s| - 1])
  {
    if |s| > 1 {
      CrossingParity(s[..|s| - 1]);
    }
  }
}

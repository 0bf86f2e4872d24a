/** One client's token bucket (api/middleware/rate_limiter.py:16-36) and its whole runs. */
module TokenBucket {
  import opened RealFacts

  datatype Policy = Policy(capacity: real, rate: real)

  /** What a limiter remembers of a key; `Fresh` is a key it has not seen. */
  datatype Bucket = Fresh | Filled(level: real, last: real)

  /** The pair returned by `consume`; the wait is a quotient, so a zero rate raises instead. */
  datatype Outcome = Granted | Refused(wait: real) | ZeroDivision

  datatype Call = Call(now: real, tokens: int)

  function Min(x: real, y: real): real {
    if y < x then y else x
  }

  /** The level a call at time `now` finds after its refill. */
  function Level(p: Policy, b: Bucket, now: real): real {
    if b.Fresh? then p.capacity
    else Min(p.capacity, b.level + Prod(now - b.last, p.rate))
  }

  function Decide(p: Policy, level: real, tokens: int): Outcome {
    if level >= tokens as real then Granted
    else if p.rate == 0.0 then ZeroDivision
    else Refused((tokens as real - level) / p.rate)
  }

  function After(p: Policy, b: Bucket, c: Call): Bucket {
    var level := Level(p, b, c.now);
    Filled(if level >= c.tokens as real then level - c.tokens as real else level, c.now)
  }

  function Outcomes(p: Policy, b: Bucket, calls: seq<Call>): (outs: seq<Outcome>)
    ensures |outs| == |calls|
    decreases |calls|
  {
    if calls == [] then []
    else [Decide(p, Level(p, b, calls[0].now), calls[0].tokens)]
         + Outcomes(p, After(p, b, calls[0]), calls[1..])
  }

  function AfterAll(p: Policy, b: Bucket, calls: seq<Call>): Bucket
    decreases |calls|
  {
    if calls == [] then b else AfterAll(p, After(p, b, calls[0]), calls[1..])
  }

  // ---------------------------------------------------------------- runs

  /** A clock that never runs backwards from `start`, and no negative amounts. */
  ghost predicate Regular(calls: seq<Call>, start: real) {
    && (forall i :: 0 <= i < |calls| ==> start <= calls[i].now && calls[i].tokens >= 0)
    && (forall i, j :: 0 <= i < j < |calls| ==> calls[i].now <= calls[j].now)
  }

  ghost predicate Sensible(p: Policy) {
    p.capacity >= 0.0 && p.rate >= 0.0
  }

  ghost predicate InRange(p: Policy, b: Bucket, now: real) {
    b.Filled? ==> 0.0 <= b.level <= p.capacity && b.last <= now
  }

  lemma {:induction false} LevelInRange(p: Policy, b: Bucket, now: real)
    requires Sensible(p) && InRange(p, b, now)
    ensures 0.0 <= Level(p, b, now) <= p.capacity
  {
    if b.Filled? {
      ProductNonNegative(now - b.last, p.rate);
    }
  }

  lemma {:induction false} LevelKept(p: Policy, b: Bucket, c: Call)
    requires Sensible(p) && InRange(p, b, c.now) && c.tokens >= 0
    ensures InRange(p, After(p, b, c), c.now)
  {
    hide Level;
    LevelInRange(p, b, c.now);
  }

  /** A key that was not seen before has a full bucket; a negative amount overfills it. */
  lemma {:induction false} NegativeOverfills(p: Policy, c: Call)
    requires Sensible(p) && c.tokens < 0
    ensures InRange(p, Fresh, c.now) && !InRange(p, After(p, Fresh, c), c.now)
  {
  }

  /** Asking for an amount keeps every bucket in range, at every time, exactly if it is not negative. */
  lemma {:induction false} LevelKeptWhen(p: Policy, tokens: int)
    requires Sensible(p)
    ensures (forall b, now :: InRange(p, b, now) ==> InRange(p, After(p, b, Call(now, tokens)), now))
            <==> tokens >= 0
  {
    hide After, InRange;
    if tokens >= 0 {
      forall b, now | InRange(p, b, now)
        ensures InRange(p, After(p, b, Call(now, tokens)), now)
      {
        LevelKept(p, b, Call(now, tokens));
      }
    } else {
      NegativeOverfills(p, Call(0.0, tokens));
    }
  }

  /** The stored level stays within the capacity over every run. */
  lemma {:induction false} RunInRange(p: Policy, b: Bucket, calls: seq<Call>, start: real, now: real)
    requires Sensible(p) && InRange(p, b, start) && Regular(calls, start)
    requires start <= now && forall i :: 0 <= i < |calls| ==> calls[i].now <= now
    ensures InRange(p, AfterAll(p, b, calls), now)
    decreases |calls|
  {
    hide Level;
    if calls != [] {
      LevelInRange(p, b, calls[0].now);
      RunInRange(p, After(p, b, calls[0]), calls[1..], calls[0].now, now);
    }
  }

  /** Waiting adds at most `rate` per second. */
  lemma {:induction false} LevelGrowth(p: Policy, b: Bucket, now: real, later: real)
    requires b.Filled? && b.last == now
    ensures Level(p, b, later) <= b.level + Prod(later - now, p.rate)
  {
  }

  /** Tokens handed out by a run, given its outcomes. */
  function TokensGranted(calls: seq<Call>, outs: seq<Outcome>): int
    requires |calls| == |outs|
  {
    if calls == [] then 0
    else (if outs[0].Granted? then calls[0].tokens else 0) + TokensGranted(calls[1..], outs[1..])
  }

  lemma {:induction false} GrantedWithin(p: Policy, b: Bucket, calls: seq<Call>, start: real)
    requires Sensible(p) && InRange(p, b, start) && Regular(calls, start) && calls != []
    ensures TokensGranted(calls, Outcomes(p, b, calls)) as real
            <= Level(p, b, calls[0].now) + Prod(calls[|calls| - 1].now - calls[0].now, p.rate)
    decreases |calls|
  {
    hide Level, Prod;
    var c, rest, b' := calls[0], calls[1..], After(p, b, calls[0]);
    LevelInRange(p, b, c.now);
    if rest == [] {
      assert TokensGranted(rest, Outcomes(p, b', rest)) == 0;
      NoTime(c.now, p.rate);
    } else {
      GrantedWithin(p, b', rest, c.now);
      LevelGrowth(p, b', c.now, rest[0].now);
      AddTimes(calls[|calls| - 1].now, rest[0].now, c.now, p.rate);
    }
  }

  lemma {:induction false} NoTime(t: real, rate: real)
    ensures Prod(t - t, rate) == 0.0
  {
  }

  lemma {:induction false} AddTimes(t: real, s: real, r: real, rate: real)
    ensures Prod(t - s, rate) + Prod(s - r, rate) == Prod(t - r, rate)
  {
  }

  lemma {:induction false} OutcomesSplit(p: Policy, b: Bucket, calls: seq<Call>, i: nat)
    requires i <= |calls|
    ensures Outcomes(p, b, calls)[i..] == Outcomes(p, AfterAll(p, b, calls[..i]), calls[i..])
    ensures Outcomes(p, b, calls)[..i] == Outcomes(p, b, calls[..i])
    decreases |calls|
  {
    if i > 0 {
      OutcomesSplit(p, After(p, b, calls[0]), calls[1..], i - 1);
      assert calls[..i][1..] == calls[1..][..i - 1];
      assert calls[1..][i - 1..] == calls[i..];
    }
  }

  lemma {:induction false} OutcomesSlice(p: Policy, b: Bucket, calls: seq<Call>, i: nat, j: nat)
    requires i <= j <= |calls|
    ensures Outcomes(p, b, calls)[i..j] == Outcomes(p, AfterAll(p, b, calls[..i]), calls[i..j])
  {
    hide After, Decide;
    OutcomesSplit(p, b, calls, i);
    OutcomesSplit(p, AfterAll(p, b, calls[..i]), calls[i..], j - i);
    assert calls[i..][..j - i] == calls[i..j];
    assert Outcomes(p, b, calls)[i..][..j - i] == Outcomes(p, b, calls)[i..j];
  }

  /**
   * Main theorem: the calls `i` to `j - 1` of any run, made between times s and t, are granted at
   * most capacity + rate (t - s) tokens together.
   */
  lemma {:induction false} WindowBound(
    p: Policy, b: Bucket, calls: seq<Call>, i: nat, j: nat, start: real, s: real, t: real)
    requires Sensible(p) && InRange(p, b, start) && Regular(calls, start)
    requires i < j <= |calls| && s <= calls[i].now && calls[j - 1].now <= t
    ensures TokensGranted(calls[i..j], Outcomes(p, b, calls)[i..j]) as real
            <= p.capacity + Prod(t - s, p.rate)
  {
    hide Level, Prod, Outcomes, AfterAll;
    var window, mid := calls[i..j], AfterAll(p, b, calls[..i]);
    OutcomesSlice(p, b, calls, i, j);
    RunInRange(p, b, calls[..i], start, calls[i].now);
    GrantedWithin(p, mid, window, calls[i].now);
    LevelInRange(p, mid, calls[i].now);
    TimesMonotone(window[|window| - 1].now - window[0].now, t - s, p.rate);
  }

  lemma {:induction false} TimesMonotone(a: real, b: real, rate: real)
    requires a <= b && rate >= 0.0
    ensures Prod(a, rate) <= Prod(b, rate)
  {
    ProductMonotone(a, b, rate);
  }

  lemma {:induction false} OutcomesOfCons(p: Policy, b: Bucket, c: Call, rest: seq<Call>)
    ensures Outcomes(p, b, [c] + rest)
            == [Decide(p, Level(p, b, c.now), c.tokens)] + Outcomes(p, After(p, b, c), rest)
  {
    assert ([c] + rest)[1..] == rest;
  }

  // ---------------------------------------------------------------- exactly which calls are granted

  /** `x` more tokens fit in at time `now`, after `granted` of them since an allowance of `base` at `since`. */
  predicate Within(p: Policy, base: real, since: real, granted: int, x: real, now: real) {
    granted as real + x <= base + Prod(now - since, p.rate)
  }

  /** A bucket full at call `j` has `x` tokens left at call `i` after what was granted in between. */
  predicate FitsSince(p: Policy, calls: seq<Call>, outs: seq<Outcome>, j: nat, i: nat, x: real)
    requires j <= i < |calls| == |outs|
  {
    Within(p, p.capacity, calls[j].now, TokensGranted(calls[j..i], outs[j..i]), x, calls[i].now)
  }

  /** So at call `i` for every call before it, and with the bucket the run starts from. */
  ghost predicate Affordable(p: Policy, b: Bucket, calls: seq<Call>, outs: seq<Outcome>, i: nat, x: real)
    requires i < |calls| == |outs|
  {
    && (forall j :: 0 <= j <= i ==> FitsSince(p, calls, outs, j, i, x))
    && (b.Filled? ==> Within(p, b.level, b.last, TokensGranted(calls[..i], outs[..i]), x, calls[i].now))
  }

  /** What the first call leaves allows `x` tokens later exactly if full bucket and old level do. */
  lemma {:induction false} FirstCall(p: Policy, b: Bucket, c: Call, granted: int, x: real, now: real)
    ensures var b' := After(p, b, c);
            var all := granted + (if Decide(p, Level(p, b, c.now), c.tokens).Granted? then c.tokens else 0);
            Within(p, b'.level, c.now, granted, x, now)
            <==> Within(p, p.capacity, c.now, all, x, now)
                 && (b.Filled? ==> Within(p, b.level, b.last, all, x, now))
  {
    hide Prod;
    if b.Filled? {
      AddTimes(now, c.now, b.last, p.rate);
    }
  }

  lemma {:induction false} AffordableTail(
    p: Policy, b: Bucket, calls: seq<Call>, outs: seq<Outcome>, i: nat, x: real)
    requires 0 < i < |calls| && outs == Outcomes(p, b, calls)
    ensures Affordable(p, b, calls, outs, i, x)
            <==> Affordable(p, After(p, b, calls[0]), calls[1..], outs[1..], i - 1, x)
  {
    hide Level, After, Decide, Within, Outcomes;
    var c, b', rest, more := calls[0], After(p, b, calls[0]), calls[1..], outs[1..];
    OutcomesOfCons(p, b, c, rest);
    assert calls == [c] + rest;
    assert calls[0..i] == calls[..i] && outs[0..i] == outs[..i];
    assert calls[..i][1..] == rest[..i - 1] && outs[..i][1..] == more[..i - 1];
    FirstCall(p, b, c, TokensGranted(rest[..i - 1], more[..i - 1]), x, calls[i].now);
    AfterIsFilled(p, b, c);
    forall j | 0 < j <= i
      ensures FitsSince(p, calls, outs, j, i, x) <==> FitsSince(p, rest, more, j - 1, i - 1, x)
    {
      assert calls[j..i] == rest[j - 1..i - 1] && outs[j..i] == more[j - 1..i - 1];
    }
    hide FitsSince;
    if Affordable(p, b', rest, more, i - 1, x) {
      forall j | 0 <= j <= i
        ensures FitsSince(p, calls, outs, j, i, x)
      {
        assert j > 0 ==> FitsSince(p, rest, more, j - 1, i - 1, x);
      }
    }
    if Affordable(p, b, calls, outs, i, x) {
      var m := i - 1;
      forall j | 0 <= j <= m
        ensures FitsSince(p, rest, more, j, m, x)
      {
        assert FitsSince(p, calls, outs, j + 1, i, x);
      }
      assert FitsSince(p, calls, outs, 0, i, x);
    }
  }

  lemma {:induction false} AfterIsFilled(p: Policy, b: Bucket, c: Call)
    ensures After(p, b, c).Filled? && After(p, b, c).last == c.now
  {
  }

  /** At the first call exactly the level found is affordable. */
  lemma {:induction false} AffordableNow(p: Policy, b: Bucket, calls: seq<Call>, outs: seq<Outcome>, x: real)
    requires 0 < |calls| == |outs|
    ensures Affordable(p, b, calls, outs, 0, x) <==> x <= Level(p, b, calls[0].now)
  {
    hide Prod;
    NoTime(calls[0].now, p.rate);
    assert calls[0..0] == calls[..0] == [];
    assert FitsSince(p, calls, outs, 0, 0, x) <==> x <= p.capacity;
  }

  /** What a refusal announces, times the rate, is what was missing. */
  lemma {:induction false} MissingIs(p: Policy, level: real, tokens: int, x: real)
    requires Decide(p, level, tokens).Refused?
    ensures x <= level <==> x <= tokens as real - Prod(Decide(p, level, tokens).wait, p.rate)
  {
  }

  /**
   * Main theorem: a call of any run, from any bucket, is granted exactly if for every call up to
   * it the tokens granted from that one on, with those it asks for, are at most capacity plus rate
   * times the time in between, and for a filled bucket at most its level plus rate times its age.
   */
  lemma {:induction false} GrantedWhen(p: Policy, b: Bucket, calls: seq<Call>, i: nat)
    requires i < |calls|
    ensures var outs := Outcomes(p, b, calls);
            && (outs[i].Granted? <==> Affordable(p, b, calls, outs, i, calls[i].tokens as real))
            && (!outs[i].Granted? ==> (outs[i].ZeroDivision? <==> p.rate == 0.0))
    decreases i
  {
    hide Prod, Level, After, Affordable, Outcomes;
    var outs, rest := Outcomes(p, b, calls), calls[1..];
    assert calls == [calls[0]] + rest;
    OutcomesOfCons(p, b, calls[0], rest);
    if i == 0 {
      AffordableNow(p, b, calls, outs, calls[0].tokens as real);
    } else {
      hide Decide;
      GrantedWhen(p, After(p, b, calls[0]), rest, i - 1);
      AffordableTail(p, b, calls, outs, i, calls[i].tokens as real);
    }
  }

  /** The wait told with a refusal, times the rate, is exactly by how much the call asked too much. */
  lemma {:induction false} WaitCoversShortfall(p: Policy, b: Bucket, calls: seq<Call>, i: nat, x: real)
    requires i < |calls| && Outcomes(p, b, calls)[i].Refused?
    ensures var outs := Outcomes(p, b, calls);
            Affordable(p, b, calls, outs, i, x)
            <==> x <= calls[i].tokens as real - Prod(outs[i].wait, p.rate)
    decreases i
  {
    hide Prod, Level, After, Decide, Affordable, Outcomes;
    var outs, rest := Outcomes(p, b, calls), calls[1..];
    assert calls == [calls[0]] + rest;
    OutcomesOfCons(p, b, calls[0], rest);
    if i == 0 {
      AffordableNow(p, b, calls, outs, x);
      MissingIs(p, Level(p, b, calls[0].now), calls[0].tokens, x);
    } else {
      WaitCoversShortfall(p, After(p, b, calls[0]), rest, i - 1, x);
      AffordableTail(p, b, calls, outs, i, x);
    }
  }

  // ---------------------------------------------------------------- refusals leave no trace

  /** Two buckets that no call from `now` on can tell apart. */
  ghost predicate Alike(p: Policy, b: Bucket, b': Bucket, now: real) {
    forall t: real :: t >= now ==> Level(p, b, t) == Level(p, b', t)
  }

  lemma {:induction false} RefusalIsInvisible(p: Policy, b: Bucket, c: Call)
    requires Sensible(p) && InRange(p, b, c.now)
    requires !Decide(p, Level(p, b, c.now), c.tokens).Granted?
    ensures Alike(p, b, After(p, b, c), c.now)
  {
    hide Prod;
    forall t: real | t >= c.now
      ensures Level(p, b, t) == Level(p, After(p, b, c), t)
    {
      TimesMonotone(0.0, t - c.now, p.rate);
      NothingTimes(p.rate);
      if b.Filled? {
        AddTimes(t, c.now, b.last, p.rate);
      }
    }
  }

  lemma {:induction false} NothingTimes(rate: real)
    ensures Prod(0.0, rate) == 0.0
  {
  }

  lemma {:induction false} AlikeOutcomes(p: Policy, b: Bucket, b': Bucket, calls: seq<Call>, now: real)
    requires Alike(p, b, b', now) && Regular(calls, now)
    ensures Outcomes(p, b, calls) == Outcomes(p, b', calls)
  {
    hide Level;
    if calls != [] {
      assert After(p, b, calls[0]) == After(p, b', calls[0]);
    }
  }

  /** The elements of `s` marked in `keep`. */
  function Kept<T>(s: seq<T>, keep: seq<bool>): (k: seq<T>)
    requires |s| == |keep|
  {
    if s == [] then [] else (if keep[0] then [s[0]] else []) + Kept(s[1..], keep[1..])
  }

  lemma {:induction false} RegularTail(calls: seq<Call>, start: real)
    requires Regular(calls, start) && calls != []
    ensures Regular(calls[1..], calls[0].now) && Regular(calls[1..], start)
  {
  }

  lemma {:induction false} RegularCons(c: Call, rest: seq<Call>, start: real)
    requires Regular(rest, c.now) && start <= c.now && c.tokens >= 0
    ensures Regular([c] + rest, start) && Regular(rest, start)
  {
  }

  lemma {:induction false} KeptRegular(calls: seq<Call>, keep: seq<bool>, start: real)
    requires |calls| == |keep| && Regular(calls, start)
    ensures Regular(Kept(calls, keep), start)
  {
    if calls != [] {
      assert start <= calls[0].now && calls[0].tokens >= 0;
      hide Regular;
      var rest := Kept(calls[1..], keep[1..]);
      RegularTail(calls, start);
      KeptRegular(calls[1..], keep[1..], calls[0].now);
      RegularCons(calls[0], rest, start);
      assert Kept(calls, keep) == if keep[0] then [calls[0]] + rest else rest;
    }
  }

  /** Deleting any set of refused calls from a run changes no other outcome, wait included. */
  lemma {:induction false} DeletingRefusals(
    p: Policy, b: Bucket, calls: seq<Call>, keep: seq<bool>, start: real)
    requires Sensible(p) && InRange(p, b, start) && Regular(calls, start) && |keep| == |calls|
    requires forall i :: 0 <= i < |calls| && !keep[i] ==> !Outcomes(p, b, calls)[i].Granted?
    ensures Outcomes(p, b, Kept(calls, keep)) == Kept(Outcomes(p, b, calls), keep)
    decreases |calls|
  {
    hide Level, Decide, After, InRange;
    if calls != [] {
      var c, rest, b' := calls[0], calls[1..], After(p, b, calls[0]);
      var outs := Outcomes(p, b, calls);
      assert outs[1..] == Outcomes(p, b', rest) && outs[0] == Decide(p, Level(p, b, c.now), c.tokens);
      AfterInRange(p, b, c, start);
      forall i | 0 <= i < |rest| && !keep[1..][i]
        ensures !Outcomes(p, b', rest)[i].Granted?
      {
        assert !keep[i + 1] && outs[i + 1] == outs[1..][i];
      }
      DeletingRefusals(p, b', rest, keep[1..], c.now);
      if keep[0] {
        OutcomesOfCons(p, b, c, Kept(rest, keep[1..]));
        assert Kept(calls, keep) == [c] + Kept(rest, keep[1..]);
      } else {
        assert !outs[0].Granted?;
        assert Kept(calls, keep) == Kept(rest, keep[1..]);
        assert Kept(outs, keep) == Kept(outs[1..], keep[1..]);
        RefusalIsInvisible(p, b, c);
        KeptRegular(rest, keep[1..], c.now);
        AlikeOutcomes(p, b, b', Kept(rest, keep[1..]), c.now);
      }
    }
  }

  lemma {:induction false} AfterInRange(p: Policy, b: Bucket, c: Call, start: real)
    requires Sensible(p) && InRange(p, b, start) && start <= c.now && c.tokens >= 0
    ensures InRange(p, After(p, b, c), c.now) && InRange(p, b, c.now)
  {
    LevelInRange(p, b, c.now);
  }

  // ---------------------------------------------------------------- the wait is exact

  /** From `now` on, `n` tokens are to be had exactly at times `ready` and later. */
  ghost predicate ReadyAt(p: Policy, b: Bucket, n: int, ready: real, now: real) {
    forall t: real :: t >= now ==> (Level(p, b, t) >= n as real <==> t >= ready)
  }

  lemma {:induction false} WaitIsExact(p: Policy, b: Bucket, c: Call)
    requires Sensible(p) && InRange(p, b, c.now)
    requires Decide(p, Level(p, b, c.now), c.tokens).Refused?
    ensures var wait := Decide(p, Level(p, b, c.now), c.tokens).wait;
            && wait > 0.0
            && (c.tokens as real <= p.capacity ==>
                  ReadyAt(p, After(p, b, c), c.tokens, c.now + wait, c.now))
            && (c.tokens as real > p.capacity ==>
                  forall t: real :: Level(p, After(p, b, c), t) < c.tokens as real)
  {
    hide Prod;
    var level, n := Level(p, b, c.now), c.tokens as real;
    var wait, b' := (n - level) / p.rate, After(p, b, c);
    LevelInRange(p, b, c.now);
    QuotientBounds(n - level, p.rate, 0.0);
    forall t: real | t >= c.now
      ensures n <= p.capacity ==> (Level(p, b', t) >= n <==> t >= c.now + wait)
    {
      Shortfall(n - level, p.rate, t - c.now);
    }
  }

  /** Told by its outcomes: a second try at time `t` is granted exactly once the wait is over. */
  lemma {:induction false} SecondTryWhen(p: Policy, b: Bucket, c: Call, t: real)
    requires Sensible(p) && InRange(p, b, c.now) && c.now <= t
    requires Outcomes(p, b, [c])[0].Refused?
    ensures Outcomes(p, b, [c, Call(t, c.tokens)])[1].Granted?
            <==> c.tokens as real <= p.capacity && t >= c.now + Outcomes(p, b, [c])[0].wait
  {
    hide Level, After;
    var again := Call(t, c.tokens);
    assert [c, again] == [c] + [again] && [c] == [c] + [] && [again] == [again] + [];
    OutcomesOfCons(p, b, c, [again]);
    OutcomesOfCons(p, b, c, []);
    OutcomesOfCons(p, After(p, b, c), again, []);
    WaitIsExact(p, b, c);
  }

  lemma {:induction false} Shortfall(missing: real, rate: real, time: real)
    requires rate > 0.0
    ensures missing <= Prod(time, rate) <==> missing / rate <= time
  {
    QuotientBounds(missing, rate, time);
  }

  /**
   * After a refusal, retries for the same amount are refused until the announced instant and
   * granted at it, however many of them came too early.
   */
  lemma {:induction false} RetriesUntilReady(
    p: Policy, b: Bucket, calls: seq<Call>, n: int, ready: real, now: real, i: nat)
    requires Sensible(p) && InRange(p, b, now) && Regular(calls, now) && i < |calls|
    requires ReadyAt(p, b, n, ready, now)
    requires forall j :: 0 <= j <= i ==> calls[j].tokens == n
    requires forall j :: 0 <= j < i ==> calls[j].now < ready
    ensures Outcomes(p, b, calls)[i].Granted? <==> calls[i].now >= ready
    decreases |calls|
  {
    hide Level, Prod;
    if i > 0 {
      var c := calls[0];
      LevelInRange(p, b, c.now);
      RefusalIsInvisible(p, b, c);
      RetriesUntilReady(p, After(p, b, c), calls[1..], n, ready, c.now, i - 1);
    }
  }
}

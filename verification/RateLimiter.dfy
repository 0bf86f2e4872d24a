/**
 * The limiter objects of api/middleware/rate_limiter.py: `RateLimiter`, with its two tables, and
 * `RateLimitMiddleware`, with one limiter per client.
 */
module RateLimiter {
  import opened Options
  import opened RealFacts
  import opened TokenBucket

  class Limiter {
    const capacity: real
    const refillRate: real
    var tokens: map<string, real>
    var lastRefill: map<string, real>

    ghost predicate Valid()
      reads this
    {
      tokens.Keys == lastRefill.Keys
    }

    function Rules(): Policy {
      Policy(capacity, refillRate)
    }

    ghost function Lookup(key: string): Bucket
      reads this
      requires Valid()
    {
      if key in tokens then Filled(tokens[key], lastRefill[key]) else Fresh
    }

    constructor (capacity: real, refillRate: real)
      ensures Valid() && this.capacity == capacity && this.refillRate == refillRate
      ensures forall key :: Lookup(key) == Fresh
    {
      this.capacity, this.refillRate := capacity, refillRate;
      tokens, lastRefill := map[], map[];
    }

    method Consume(key: string, amount: int, now: real) returns (outcome: Outcome)
      requires Valid()
      modifies this
      ensures Valid()
      ensures outcome == Decide(Rules(), Level(Rules(), old(Lookup(key)), now), amount)
      ensures Lookup(key) == After(Rules(), old(Lookup(key)), Call(now, amount))
      ensures forall other :: other != key ==> Lookup(other) == old(Lookup(other))
    {
      if key !in tokens {
        tokens := tokens[key := capacity];
        lastRefill := lastRefill[key := now];
      } else {
        var elapsed := now - lastRefill[key];
        var refill := Prod(elapsed, refillRate);
        tokens := tokens[key := Min(capacity, tokens[key] + refill)];
        lastRefill := lastRefill[key := now];
      }
      if tokens[key] >= amount as real {
        tokens := tokens[key := tokens[key] - amount as real];
        return Granted;
      }
      if refillRate == 0.0 {
        return ZeroDivision;
      }
      return Refused((amount as real - tokens[key]) / refillRate);
    }
  }

  /** The exact decision for calls of one token each, from a key not seen before. */
  lemma {:induction false} GrantedOneByOne(p: Policy, calls: seq<Call>, i: nat)
    requires i < |calls| && forall k :: 0 <= k < |calls| ==> calls[k].tokens == 1
    ensures var outs := Outcomes(p, Fresh, calls);
            outs[i].Granted?
            <==> forall j :: 0 <= j <= i ==>
                   TokensGranted(calls[j..i], outs[j..i]) as real + 1.0
                   <= p.capacity + Prod(calls[i].now - calls[j].now, p.rate)
  {
    hide Prod, Outcomes, TokensGranted;
    GrantedWhen(p, Fresh, calls, i);
    var outs := Outcomes(p, Fresh, calls);
    assert forall j :: 0 <= j <= i ==>
        (FitsSince(p, calls, outs, j, i, 1.0)
         <==> TokensGranted(calls[j..i], outs[j..i]) as real + 1.0
              <= p.capacity + Prod(calls[i].now - calls[j].now, p.rate));
  }

  // ---------------------------------------------------------------- many clients

  datatype Request = Request(client: string, now: real)

  type Table = map<string, Bucket>

  function Seen(table: Table, client: string): Bucket {
    if client in table then table[client] else Fresh
  }

  /** The outcomes of a run of requests, one token each, over the table of buckets. */
  function Serve(p: Policy, table: Table, requests: seq<Request>): (outs: seq<Outcome>)
    ensures |outs| == |requests|
    decreases |requests|
  {
    if requests == [] then [] else
    var r := requests[0];
    var b := Seen(table, r.client);
    [Decide(p, Level(p, b, r.now), 1)]
    + Serve(p, table[r.client := After(p, b, Call(r.now, 1))], requests[1..])
  }

  function CallsOf(requests: seq<Request>, client: string): seq<Call>
    decreases |requests|
  {
    if requests == [] then []
    else (if requests[0].client == client then [Call(requests[0].now, 1)] else [])
         + CallsOf(requests[1..], client)
  }

  lemma {:induction false} OneTokenEach(requests: seq<Request>, client: string)
    ensures forall i :: 0 <= i < |CallsOf(requests, client)| ==> CallsOf(requests, client)[i].tokens == 1
    decreases |requests|
  {
    if requests != [] {
      OneTokenEach(requests[1..], client);
    }
  }

  function OutcomesOf(requests: seq<Request>, outs: seq<Outcome>, client: string): seq<Outcome>
    requires |requests| == |outs|
    decreases |requests|
  {
    if requests == [] then []
    else (if requests[0].client == client then [outs[0]] else [])
         + OutcomesOf(requests[1..], outs[1..], client)
  }

  /** What a client is told equals what it would be told alone, whoever else is calling. */
  lemma {:induction false} ClientsAreIndependent(
    p: Policy, table: Table, requests: seq<Request>, client: string)
    ensures OutcomesOf(requests, Serve(p, table, requests), client)
            == Outcomes(p, Seen(table, client), CallsOf(requests, client))
    decreases |requests|
  {
    hide Level, Decide, After;
    if requests != [] {
      var r := requests[0];
      var next := table[r.client := After(p, Seen(table, r.client), Call(r.now, 1))];
      var rest := CallsOf(requests[1..], client);
      ClientsAreIndependent(p, next, requests[1..], client);
      if r.client == client {
        OutcomesOfCons(p, Seen(table, client), Call(r.now, 1), rest);
      } else {
        assert CallsOf(requests, client) == rest;
      }
    }
  }

  /** The table of buckets after a run of requests. */
  function TableAfter(p: Policy, table: Table, requests: seq<Request>): Table
    decreases |requests|
  {
    if requests == [] then table else
    var r := requests[0];
    TableAfter(p, table[r.client := After(p, Seen(table, r.client), Call(r.now, 1))], requests[1..])
  }

  /** One more request is decided on the table the earlier ones left. */
  lemma {:induction false} ServeMore(p: Policy, table: Table, requests: seq<Request>, r: Request)
    ensures var t := TableAfter(p, table, requests);
            var b := Seen(t, r.client);
            && Serve(p, table, requests + [r])
               == Serve(p, table, requests) + [Decide(p, Level(p, b, r.now), 1)]
            && TableAfter(p, table, requests + [r]) == t[r.client := After(p, b, Call(r.now, 1))]
    decreases |requests|
  {
    hide Level, Decide, After;
    if requests == [] {
      assert [] + [r] == [r] && [r][1..] == [];
    } else {
      var q := requests[0];
      var next := table[q.client := After(p, Seen(table, q.client), Call(q.now, 1))];
      ServeMore(p, next, requests[1..], r);
      assert (requests + [r])[1..] == requests[1..] + [r];
    }
  }

  // ---------------------------------------------------------------- the middleware

  /** `None` when the request is not counted at all. */
  type Reply = Option<Outcome>

  const EXEMPT_PATHS :=
    {"/v1/health", "/v1/health/liveness", "/v1/health/readiness", "/metrics"}

  class Middleware {
    const defaultRate: int
    const defaultBurst: int
    var limiters: map<string, Limiter>
    /** The requests that were counted so far, and what they were told. */
    ghost var served: seq<Request>
    ghost var replies: seq<Outcome>

    function Rules(): Policy {
      Policy(defaultBurst as real, defaultRate as real / 60.0)
    }

    /** Every client has a limiter of its own, with the same rules. */
    ghost predicate Separate()
      reads `limiters, limiters.Values
    {
      && (forall c :: c in limiters ==> limiters[c].Valid() && limiters[c].Rules() == Rules())
      && (forall c, d :: c in limiters && d in limiters && c != d ==> limiters[c] != limiters[d])
    }

    /** What the middleware remembers of a client. */
    ghost function BucketOf(client: string): Bucket
      reads `limiters, limiters.Values
      requires Separate()
    {
      if client in limiters then limiters[client].Lookup(client) else Fresh
    }

    /** The replies and the buckets are those of the requests served so far. */
    ghost predicate Valid()
      reads this, limiters.Values
    {
      && Separate()
      && replies == Serve(Rules(), map[], served)
      && (forall c :: BucketOf(c) == Seen(TableAfter(Rules(), map[], served), c))
    }

    /**
     * Whatever requests were served, the `i`-th one of a client was granted exactly if, for every
     * earlier one and itself, the grants from there on and this one are at most the burst plus a
     * sixtieth of the rate for every second in between.
     */
    lemma {:induction false} GrantedWhenServed(client: string, i: nat)
      requires Valid() && i < |CallsOf(served, client)|
      ensures var calls, outs := CallsOf(served, client), OutcomesOf(served, replies, client);
              && |outs| == |calls|
              && (outs[i].Granted?
                  <==> forall j :: 0 <= j <= i ==>
                         TokensGranted(calls[j..i], outs[j..i]) as real + 1.0
                         <= defaultBurst as real + Prod(calls[i].now - calls[j].now, defaultRate as real / 60.0))
    {
      hide Prod, Serve, TableAfter, Separate, Outcomes, TokensGranted, CallsOf, OutcomesOf;
      EachClientAlone(client);
      OneTokenEach(served, client);
      GrantedOneByOne(Rules(), CallsOf(served, client), i);
    }

    constructor (rate: int, burst: int)
      ensures Valid() && defaultRate == rate && defaultBurst == burst && served == []
    {
      defaultRate, defaultBurst := rate, burst;
      limiters, served, replies := map[], [], [];
    }

    /** Whatever requests were served, each client was told what it would have been told alone. */
    lemma {:induction false} EachClientAlone(client: string)
      requires Valid()
      ensures |replies| == |served|
      ensures OutcomesOf(served, replies, client) == Outcomes(Rules(), Fresh, CallsOf(served, client))
    {
      ClientsAreIndependent(Rules(), map[], served, client);
    }

    /** Get or create the client's limiter; a new one has not seen its client yet. */
    method LimiterFor(client: string) returns (limiter: Limiter)
      requires Separate()
      modifies `limiters
      ensures Separate() && client in limiters && limiter == limiters[client]
      ensures limiter in old(limiters.Values) || fresh(limiter)
      ensures limiters == old(limiters)[client := limiter]
      ensures limiter.Lookup(client) == old(BucketOf(client))
      ensures forall c :: c in old(limiters) ==> limiters[c] == old(limiters[c])
    {
      if client !in limiters {
        var created := new Limiter(defaultBurst as real, defaultRate as real / 60.0);
        limiters := limiters[client := created];
      }
      limiter := limiters[client];
    }

    /** Lines 69-77: fetch or create the client's limiter, then take one token. */
    method TakeToken(client: string, now: real) returns (outcome: Outcome)
      requires Separate()
      modifies `limiters, limiters.Values
      ensures Separate() && fresh(limiters.Values - old(limiters.Values))
      ensures outcome == Decide(Rules(), Level(Rules(), old(BucketOf(client)), now), 1)
      ensures BucketOf(client) == After(Rules(), old(BucketOf(client)), Call(now, 1))
      ensures forall c :: c != client ==> BucketOf(c) == old(BucketOf(c))
    {
      hide Level, Decide, After;
      var limiter := LimiterFor(client);
      outcome := limiter.Consume(client, 1, now);
    }

    /** The same with its place in the history of requests. */
    method Admit(client: string, now: real) returns (outcome: Outcome)
      requires Valid()
      modifies this, limiters.Values
      ensures Valid() && fresh(limiters.Values - old(limiters.Values))
      ensures served == old(served) + [Request(client, now)] && replies == old(replies) + [outcome]
      ensures outcome == Decide(Rules(), Level(Rules(), old(BucketOf(client)), now), 1)
      ensures BucketOf(client) == After(Rules(), old(BucketOf(client)), Call(now, 1))
      ensures forall c :: c != client ==> BucketOf(c) == old(BucketOf(c))
    {
      hide Level, Decide, After, Serve, TableAfter, Separate;
      ServeMore(Rules(), map[], served, Request(client, now));
      outcome := TakeToken(client, now);
      served, replies := served + [Request(client, now)], replies + [outcome];
    }

    /** The API key names the client unless it is missing or empty; then the host does. */
    method Handle(http: bool, path: string, apiKey: Option<string>, host: string, now: real)
      returns (reply: Reply)
      requires Valid()
      modifies this, limiters.Values
      ensures Valid() && fresh(limiters.Values - old(limiters.Values))
      ensures !http || path in EXEMPT_PATHS ==>
                reply == None && served == old(served) && forall c :: BucketOf(c) == old(BucketOf(c))
      ensures http && path !in EXEMPT_PATHS ==>
                var c := if apiKey.None? || apiKey.value == "" then host else apiKey.value;
                && served == old(served) + [Request(c, now)]
                && reply == Some(Decide(Rules(), Level(Rules(), old(BucketOf(c)), now), 1))
                && BucketOf(c) == After(Rules(), old(BucketOf(c)), Call(now, 1))
                && forall d :: d != c ==> BucketOf(d) == old(BucketOf(d))
    {
      hide Level, Decide, After;
      if !http || path in ["/v1/health", "/v1/health/liveness", "/v1/health/readiness", "/metrics"] {
        return None;
      }
      var client := host;
      if apiKey.Some? && apiKey.value != "" {
        client := apiKey.value;
      }
      var outcome := Admit(client, now);
      return Some(outcome);
    }
  }
}

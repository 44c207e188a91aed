/** Per-client token buckets (internal/api/ratelimit.go). Times count seconds. */
module RateLimit {

  /** What a bucket remembers. */
  datatype Bucket = Bucket(tokens: real, last: real)

  /** The settings shared by all buckets: burst size and tokens per second. */
  datatype Limits = Limits(capacity: real, rate: real) {
    predicate Valid() {
      capacity >= 0.0 && rate >= 0.0
    }
  }

  function Full(lim: Limits, now: real): Bucket {
    Bucket(lim.capacity, now)
  }

  /** What flows in over `d` seconds. */
  function Inflow(d: real, rate: real): real {
    d * rate
  }

  lemma InflowNonNeg(d: real, rate: real)
    requires d >= 0.0 && rate >= 0.0
    ensures Inflow(d, rate) >= 0.0
  {
  }

  lemma InflowAdd(a: real, b: real, c: real, rate: real)
    ensures Inflow(c - a, rate) == Inflow(b - a, rate) + Inflow(c - b, rate)
  {
    var x, y := b - a, c - b;
    assert c - a == x + y;
    assert (x + y) * rate == x * rate + y * rate;
  }

  function Refill(lim: Limits, b: Bucket, now: real): real {
    var t := b.tokens + Inflow(now - b.last, lim.rate);
    if t > lim.capacity then lim.capacity else t
  }

  /** One call: refill, then spend a token if there is a whole one. */
  function Allow(lim: Limits, b: Bucket, now: real): (Bucket, bool) {
    var t := Refill(lim, b, now);
    if t >= 1.0 then (Bucket(t - 1.0, now), true) else (Bucket(t, now), false)
  }

  /** The decisions for calls at the given times. */
  function Decisions(lim: Limits, b: Bucket, times: seq<real>): (r: seq<bool>)
    ensures |r| == |times|
    decreases times
  {
    if times == [] then []
    else
      var (b', ok) := Allow(lim, b, times[0]);
      [ok] + Decisions(lim, b', times[1..])
  }

  /** The clock never runs backwards, and starts no earlier than `from`. */
  predicate Monotone(from: real, times: seq<real>)
    decreases times
  {
    times == [] || (from <= times[0] && Monotone(times[0], times[1..]))
  }

  predicate InRange(lim: Limits, b: Bucket) {
    0.0 <= b.tokens <= lim.capacity
  }

  // ----- tokens stay in range

  lemma RefillGrows(lim: Limits, b: Bucket, now: real)
    requires lim.Valid() && InRange(lim, b) && b.last <= now
    ensures b.tokens <= Refill(lim, b, now) <= lim.capacity
    ensures Refill(lim, b, now) <= b.tokens + Inflow(now - b.last, lim.rate)
  {
    InflowNonNeg(now - b.last, lim.rate);
  }

  lemma AllowInRange(lim: Limits, b: Bucket, now: real)
    requires lim.Valid() && InRange(lim, b) && b.last <= now
    ensures InRange(lim, Allow(lim, b, now).0)
  {
    RefillGrows(lim, b, now);
  }

  /** The bucket after calls at the given times. */
  function After(lim: Limits, b: Bucket, times: seq<real>): Bucket
    decreases times
  {
    if times == [] then b else After(lim, Allow(lim, b, times[0]).0, times[1..])
  }

  /** Tokens stay between zero and the capacity through every sequence of calls. */
  lemma {:induction false} TokensInRange(lim: Limits, b: Bucket, times: seq<real>)
    requires lim.Valid() && InRange(lim, b) && Monotone(b.last, times)
    ensures InRange(lim, After(lim, b, times))
    decreases times
  {
    if times != [] {
      AllowInRange(lim, b, times[0]);
      TokensInRange(lim, Allow(lim, b, times[0]).0, times[1..]);
    }
  }

  // ----- the rate bound

  /** How many calls between `s` and `e` are allowed. */
  function AllowedIn(lim: Limits, b: Bucket, times: seq<real>, s: real, e: real): nat
    decreases times
  {
    if times == [] then 0
    else
      var (b', ok) := Allow(lim, b, times[0]);
      (if ok && s <= times[0] <= e then 1 else 0) + AllowedIn(lim, b', times[1..], s, e)
  }

  lemma {:induction false} NoneAfter(lim: Limits, b: Bucket, times: seq<real>, s: real, e: real)
    requires Monotone(b.last, times) && b.last > e
    ensures AllowedIn(lim, b, times, s, e) == 0
    decreases times
  {
    if times != [] {
      NoneAfter(lim, Allow(lim, b, times[0]).0, times[1..], s, e);
    }
  }

  /** From any bucket on, calls up to `e` can spend at most what it holds and what flows in. */
  lemma {:induction false} SpendBound(lim: Limits, b: Bucket, times: seq<real>, s: real, e: real)
    requires lim.Valid() && InRange(lim, b) && Monotone(b.last, times) && b.last <= e
    ensures AllowedIn(lim, b, times, s, e) as real <= b.tokens + Inflow(e - b.last, lim.rate)
    decreases times
  {
    InflowNonNeg(e - b.last, lim.rate);
    if times != [] {
      var t := times[0];
      var b' := Allow(lim, b, t).0;
      AllowInRange(lim, b, t);
      RefillGrows(lim, b, t);
      if t <= e {
        SpendBound(lim, b', times[1..], s, e);
        InflowAdd(b.last, t, e, lim.rate);
      } else {
        NoneAfter(lim, b', times[1..], s, e);
      }
    }
  }

  /** Rate bound: between any two moments, at most a full bucket plus what flows in between is
      allowed, for every sequence of calls. */
  lemma {:induction false} RateBound(lim: Limits, b: Bucket, times: seq<real>, s: real, e: real)
    requires lim.Valid() && InRange(lim, b) && Monotone(b.last, times) && s <= e
    ensures AllowedIn(lim, b, times, s, e) as real <= lim.capacity + Inflow(e - s, lim.rate)
    decreases times
  {
    InflowNonNeg(e - s, lim.rate);
    if times != [] {
      var t := times[0];
      var b' := Allow(lim, b, t).0;
      AllowInRange(lim, b, t);
      RefillGrows(lim, b, t);
      if t < s {
        RateBound(lim, b', times[1..], s, e);
      } else if t <= e {
        SpendBound(lim, b', times[1..], s, e);
        InflowAdd(s, t, e, lim.rate);
        InflowNonNeg(t - s, lim.rate);
      } else {
        NoneAfter(lim, b', times[1..], s, e);
      }
    }
  }

  // ----- exactly which calls are allowed

  /** How many of the decisions are positive. */
  function Count(ds: seq<bool>): nat {
    if ds == [] then 0 else Count(ds[..|ds| - 1]) + if ds[|ds| - 1] then 1 else 0
  }

  lemma CountLast(ds: seq<bool>, j: nat, k: nat)
    requires j <= k < |ds|
    ensures Count(ds[j..k + 1]) == Count(ds[j..k]) + if ds[k] then 1 else 0
  {
    assert ds[j..k + 1][..k - j] == ds[j..k];
  }

  lemma {:induction false} DecisionAt(lim: Limits, b: Bucket, times: seq<real>, k: nat)
    requires k < |times|
    ensures Decisions(lim, b, times)[k] == Allow(lim, After(lim, b, times[..k]), times[k]).1
    ensures After(lim, b, times[..k + 1]) == Allow(lim, After(lim, b, times[..k]), times[k]).0
    decreases k
  {
    var b' := Allow(lim, b, times[0]).0;
    hide Allow;
    if k == 0 {
      assert times[..1][1..] == [];
    } else {
      assert times[..k][1..] == times[1..][..k - 1] && times[..k + 1][1..] == times[1..][..k];
      DecisionAt(lim, b', times[1..], k - 1);
    }
  }

  /** The tokens a bucket that was full at the first call has for call `k`, before spending. */
  function TokensFor(lim: Limits, times: seq<real>, k: nat): real
    requires k < |times|
  {
    Refill(lim, After(lim, Full(lim, times[0]), times[..k]), times[k])
  }

  /** What the calls from `j` on would have left of a full bucket at call `k`. */
  function LeftSince(lim: Limits, times: seq<real>, ds: seq<bool>, j: nat, k: nat): real
    requires j <= k < |times| == |ds|
  {
    lim.capacity + Inflow(times[k] - times[j], lim.rate) - Count(ds[j..k]) as real
  }

  lemma TokensStep(lim: Limits, times: seq<real>, k: nat)
    requires k + 1 < |times|
    ensures var ds := Decisions(lim, Full(lim, times[0]), times);
            var t := TokensFor(lim, times, k) - (if ds[k] then 1.0 else 0.0) + Inflow(times[k + 1] - times[k], lim.rate);
            TokensFor(lim, times, k + 1) == if t > lim.capacity then lim.capacity else t
  {
    DecisionAt(lim, Full(lim, times[0]), times, k);
    hide After, Decisions, Inflow;
  }

  lemma LeftStep(lim: Limits, times: seq<real>, ds: seq<bool>, j: nat, k: nat)
    requires j <= k && k + 1 < |times| == |ds|
    ensures LeftSince(lim, times, ds, j, k + 1)
         == LeftSince(lim, times, ds, j, k) - (if ds[k] then 1.0 else 0.0) + Inflow(times[k + 1] - times[k], lim.rate)
  {
    hide Count, Inflow;
    CountLast(ds, j, k);
    InflowAdd(times[j], times[k], times[k + 1], lim.rate);
  }

  lemma LeftNow(lim: Limits, times: seq<real>, ds: seq<bool>, k: nat)
    requires k < |times| == |ds|
    ensures LeftSince(lim, times, ds, k, k) == lim.capacity
  {
    assert ds[k..k] == [];
    assert Inflow(times[k] - times[k], lim.rate) == 0.0;
  }

  /** The bucket holds the least of what a full bucket would hold, started at any of the calls so
      far. */
  lemma {:induction false} TokensAreLeast(lim: Limits, times: seq<real>, k: nat) returns (least: nat)
    requires k < |times|
    ensures var ds := Decisions(lim, Full(lim, times[0]), times);
            && least <= k && TokensFor(lim, times, k) == LeftSince(lim, times, ds, least, k)
            && forall j :: 0 <= j <= k ==> TokensFor(lim, times, k) <= LeftSince(lim, times, ds, j, k)
    decreases k
  {
    var ds := Decisions(lim, Full(lim, times[0]), times);
    LeftNow(lim, times, ds, k);
    if k == 0 {
      least := 0;
      assert TokensFor(lim, times, 0) == lim.capacity by {
        assert Inflow(times[0] - times[0], lim.rate) == 0.0;
      }
    } else {
      least := TokensAreLeast(lim, times, k - 1);
      hide TokensFor, LeftSince, Decisions, Inflow;
      TokensStep(lim, times, k - 1);
      forall j | 0 <= j <= k - 1
        ensures LeftSince(lim, times, ds, j, k)
             == LeftSince(lim, times, ds, j, k - 1) - (if ds[k - 1] then 1.0 else 0.0)
                + Inflow(times[k] - times[k - 1], lim.rate)
      {
        LeftStep(lim, times, ds, j, k - 1);
      }
      if TokensFor(lim, times, k) == lim.capacity {
        least := k;
      }
    }
  }

  /** After `n` calls, one more within `d` seconds stays within a full bucket and what flowed in. */
  predicate Within(lim: Limits, n: real, d: real) {
    n + 1.0 <= lim.capacity + d * lim.rate
  }

  /** Counted from call `j`, one more call at the time of call `k` stays within a full bucket and
      what flowed in since. */
  predicate Permitted(lim: Limits, times: seq<real>, ds: seq<bool>, j: nat, k: nat)
    requires j <= k < |times| == |ds|
  {
    Within(lim, Count(ds[j..k]) as real, times[k] - times[j])
  }

  lemma WithinIs(lim: Limits, n: real, d: real)
    ensures Within(lim, n, d) <==> lim.capacity + Inflow(d, lim.rate) - n >= 1.0
  {
  }

  lemma PermittedIs(lim: Limits, times: seq<real>, ds: seq<bool>, j: nat, k: nat)
    requires j <= k < |times| == |ds|
    ensures Permitted(lim, times, ds, j, k) <==> LeftSince(lim, times, ds, j, k) >= 1.0
  {
    hide Count, Inflow, Within;
    WithinIs(lim, Count(ds[j..k]) as real, times[k] - times[j]);
  }

  /** A call is allowed exactly when, counted from any call so far, it stays within a full bucket
      and what flowed in since: the limiter refuses nothing that the rate bound would permit,
      whatever the times of the calls. */
  lemma AllowedExactly(lim: Limits, times: seq<real>, k: nat)
    requires k < |times|
    ensures var ds := Decisions(lim, Full(lim, times[0]), times);
            ds[k] <==> forall j :: 0 <= j <= k ==> Permitted(lim, times, ds, j, k)
  {
    var ds := Decisions(lim, Full(lim, times[0]), times);
    var least := TokensAreLeast(lim, times, k);
    DecisionAt(lim, Full(lim, times[0]), times, k);
    assert ds[k] <==> TokensFor(lim, times, k) >= 1.0;
    hide TokensFor, Decisions, LeftSince, Permitted;
    forall j | 0 <= j <= k
      ensures Permitted(lim, times, ds, j, k) <==> LeftSince(lim, times, ds, j, k) >= 1.0
    {
      PermittedIs(lim, times, ds, j, k);
    }
    PermittedIs(lim, times, ds, least, k);
  }

  // ----- well-behaved clients

  /** Consecutive calls, the first counted from `from`, are at least 1/rate apart. */
  predicate Spaced(lim: Limits, from: real, times: seq<real>)
    requires lim.rate > 0.0
    decreases times
  {
    times == [] || (times[0] - from >= 1.0 / lim.rate && Spaced(lim, times[0], times[1..]))
  }

  lemma GapIsToken(d: real, rate: real)
    requires rate > 0.0 && d >= 1.0 / rate
    ensures Inflow(d, rate) >= 1.0
  {
    var y := 1.0 / rate;
    assert y * rate == 1.0;
    assert (d - y) * rate >= 0.0;
  }

  lemma {:induction false} SpacedAllowed(lim: Limits, b: Bucket, times: seq<real>)
    requires lim.rate > 0.0 && lim.capacity >= 1.0 && b.tokens >= 0.0 && Spaced(lim, b.last, times)
    ensures forall ok :: ok in Decisions(lim, b, times) ==> ok
    decreases times
  {
    if times != [] {
      GapIsToken(times[0] - b.last, lim.rate);
      SpacedAllowed(lim, Allow(lim, b, times[0]).0, times[1..]);
    }
  }

  /** A client whose calls are at least 1/rate apart is never refused by its own bucket, provided
      the bucket can hold a token at all. */
  lemma SteadyClientNeverRefused(lim: Limits, times: seq<real>)
    requires lim.rate > 0.0 && lim.capacity >= 1.0
    requires times != [] ==> Spaced(lim, times[0], times[1..])
    ensures times != [] ==> forall ok :: ok in Decisions(lim, Full(lim, times[0]), times) ==> ok
  {
    if times != [] {
      var b := Full(lim, times[0]);
      assert Inflow(times[0] - b.last, lim.rate) == 0.0;
      SpacedAllowed(lim, Allow(lim, b, times[0]).0, times[1..]);
    }
  }

  /** A bucket that cannot hold a whole token refuses every call. */
  lemma {:induction false} TooSmallRefusesAll(lim: Limits, b: Bucket, times: seq<real>)
    requires lim.capacity < 1.0
    ensures forall ok :: ok in Decisions(lim, b, times) ==> !ok
    decreases times
  {
    if times != [] {
      TooSmallRefusesAll(lim, Allow(lim, b, times[0]).0, times[1..]);
    }
  }

  // ----- one bucket per key

  datatype Call = Call(key: string, at: real)

  type Buckets = map<string, Bucket>

  /** A call on the limiter creates a full bucket for a key it has not seen. */
  function BucketFor(lim: Limits, m: Buckets, c: Call): Bucket {
    if c.key in m then m[c.key] else Full(lim, c.at)
  }

  function Admit(lim: Limits, m: Buckets, c: Call): (Buckets, bool) {
    var (b, ok) := Allow(lim, BucketFor(lim, m, c), c.at);
    (m[c.key := b], ok)
  }

  function Trace(lim: Limits, m: Buckets, calls: seq<Call>): (r: seq<bool>)
    ensures |r| == |calls|
    decreases calls
  {
    if calls == [] then []
    else
      var (m', ok) := Admit(lim, m, calls[0]);
      [ok] + Trace(lim, m', calls[1..])
  }

  /** The decisions of a trace that went to key `k`. */
  function DecisionsFor(calls: seq<Call>, decisions: seq<bool>, k: string): seq<bool>
    requires |calls| == |decisions|
  {
    if calls == [] then []
    else (if calls[0].key == k then [decisions[0]] else []) + DecisionsFor(calls[1..], decisions[1..], k)
  }

  function TimesOf(calls: seq<Call>, k: string): seq<real> {
    if calls == [] then []
    else (if calls[0].key == k then [calls[0].at] else []) + TimesOf(calls[1..], k)
  }

  /** The decisions of a bucket of its own for the given times: `b` if there is one already,
      otherwise a full one made at the first call. */
  function Alone(lim: Limits, m: Buckets, k: string, times: seq<real>): seq<bool> {
    if times == [] then []
    else Decisions(lim, if k in m then m[k] else Full(lim, times[0]), times)
  }

  lemma AloneStep(lim: Limits, m: Buckets, c: Call, times: seq<real>)
    ensures Alone(lim, m, c.key, [c.at] + times)
         == [Admit(lim, m, c).1] + Alone(lim, Admit(lim, m, c).0, c.key, times)
  {
    assert ([c.at] + times)[1..] == times;
  }

  /** Key isolation: for every interleaving of calls over any keys, a key gets the decisions a
      bucket of its own would give to its calls alone. */
  lemma {:induction false} KeyIsolation(lim: Limits, m: Buckets, calls: seq<Call>, k: string)
    ensures DecisionsFor(calls, Trace(lim, m, calls), k) == Alone(lim, m, k, TimesOf(calls, k))
    decreases calls
  {
    if calls != [] {
      var c, m' := calls[0], Admit(lim, m, calls[0]).0;
      KeyIsolation(lim, m', calls[1..], k);
      assert Trace(lim, m, calls)[1..] == Trace(lim, m', calls[1..]);
      if c.key == k {
        AloneStep(lim, m, c, TimesOf(calls[1..], k));
      } else {
        assert TimesOf(calls, k) == TimesOf(calls[1..], k);
        assert DecisionsFor(calls, Trace(lim, m, calls), k)
            == DecisionsFor(calls[1..], Trace(lim, m', calls[1..]), k);
      }
    }
  }

  // ----- the rate bound for each key

  /** How many of the decisions given at the given times, between `s` and `e`, are positive. */
  function CountIn(times: seq<real>, decisions: seq<bool>, s: real, e: real): nat
    requires |times| == |decisions|
  {
    if times == [] then 0
    else (if decisions[0] && s <= times[0] <= e then 1 else 0) + CountIn(times[1..], decisions[1..], s, e)
  }

  /** How many calls of key `k` between `s` and `e` a trace allows. */
  function AllowedFor(calls: seq<Call>, decisions: seq<bool>, k: string, s: real, e: real): nat
    requires |calls| == |decisions|
  {
    if calls == [] then 0
    else (if calls[0].key == k && decisions[0] && s <= calls[0].at <= e then 1 else 0)
         + AllowedFor(calls[1..], decisions[1..], k, s, e)
  }

  predicate CallsMonotone(from: real, calls: seq<Call>)
    decreases calls
  {
    calls == [] || (from <= calls[0].at && CallsMonotone(calls[0].at, calls[1..]))
  }

  lemma {:induction false} CountDecisions(lim: Limits, b: Bucket, times: seq<real>, s: real, e: real)
    ensures CountIn(times, Decisions(lim, b, times), s, e) == AllowedIn(lim, b, times, s, e)
    decreases times
  {
    if times != [] {
      var b' := Allow(lim, b, times[0]).0;
      CountDecisions(lim, b', times[1..], s, e);
      assert Decisions(lim, b, times)[1..] == Decisions(lim, b', times[1..]);
    }
  }

  lemma {:induction false} CountProjection(calls: seq<Call>, decisions: seq<bool>, k: string, s: real, e: real)
    requires |calls| == |decisions|
    ensures |TimesOf(calls, k)| == |DecisionsFor(calls, decisions, k)|
    ensures AllowedFor(calls, decisions, k, s, e) == CountIn(TimesOf(calls, k), DecisionsFor(calls, decisions, k), s, e)
    decreases calls
  {
    if calls != [] {
      CountProjection(calls[1..], decisions[1..], k, s, e);
      var times, ds := TimesOf(calls[1..], k), DecisionsFor(calls[1..], decisions[1..], k);
      if calls[0].key == k {
        assert ([calls[0].at] + times)[1..] == times && ([decisions[0]] + ds)[1..] == ds;
      } else {
        assert [] + times == times && [] + ds == ds;
      }
    }
  }

  lemma {:induction false} ProjectionMonotone(from: real, earlier: real, calls: seq<Call>, k: string)
    requires CallsMonotone(from, calls) && earlier <= from
    ensures Monotone(earlier, TimesOf(calls, k))
    decreases calls
  {
    if calls != [] {
      if calls[0].key == k {
        ProjectionMonotone(calls[0].at, calls[0].at, calls[1..], k);
        var times := TimesOf(calls[1..], k);
        assert ([calls[0].at] + times)[1..] == times;
      } else {
        ProjectionMonotone(calls[0].at, earlier, calls[1..], k);
        assert [] + TimesOf(calls[1..], k) == TimesOf(calls[1..], k);
      }
    }
  }

  lemma FirstOnward(from: real, times: seq<real>)
    requires Monotone(from, times) && times != []
    ensures Monotone(times[0], times)
  {
  }

  /** For every interleaving of calls over any keys, each key is allowed at most a full bucket
      plus what flows in, between any two moments. */
  lemma KeyRateBound(lim: Limits, calls: seq<Call>, k: string, s: real, e: real)
    requires lim.Valid() && s <= e
    requires calls != [] ==> CallsMonotone(calls[0].at, calls)
    ensures AllowedFor(calls, Trace(lim, map[], calls), k, s, e) as real <= lim.capacity + Inflow(e - s, lim.rate)
  {
    var times := TimesOf(calls, k);
    InflowNonNeg(e - s, lim.rate);
    CountProjection(calls, Trace(lim, map[], calls), k, s, e);
    KeyIsolation(lim, map[], calls, k);
    if times != [] {
      ProjectionMonotone(calls[0].at, calls[0].at, calls, k);
      FirstOnward(calls[0].at, times);
      CountDecisions(lim, Full(lim, times[0]), times, s, e);
      RateBound(lim, Full(lim, times[0]), times, s, e);
    }
  }

  // ----- the objects

  class TokenBucket {
    const capacity: real
    const rate: real
    var tokens: real
    var last: real

    function Value(): Bucket
      reads this
    {
      Bucket(tokens, last)
    }

    function Limit(): Limits {
      Limits(capacity, rate)
    }

    constructor (rate: real, capacity: real, now: real)
      ensures Limit() == Limits(capacity, rate) && Value() == Full(Limit(), now)
    {
      this.rate, this.capacity := rate, capacity;
      tokens, last := capacity, now;
    }

    method TryTake(now: real) returns (ok: bool)
      modifies this
      ensures (Value(), ok) == Allow(Limit(), old(Value()), now)
    {
      var elapsed := now - last;
      last := now;
      tokens := tokens + elapsed * rate;
      if tokens > capacity {
        tokens := capacity;
      }
      assert tokens == Refill(Limit(), old(Value()), now);
      ok := false;
      if tokens >= 1.0 {
        tokens := tokens - 1.0;
        ok := true;
      }
    }
  }

  class RateLimiter {
    const rate: real
    const capacity: real
    var buckets: map<string, TokenBucket>

    /** Keys never share a bucket, and all buckets have the limiter's settings. */
    ghost predicate Valid()
      reads this, buckets.Values
    {
      && (forall k :: k in buckets ==> buckets[k].Limit() == Limits(capacity, rate))
      && (forall j, k :: j in buckets && k in buckets && j != k ==> buckets[j] != buckets[k])
    }

    ghost function Value(): Buckets
      reads this, buckets.Values
    {
      map k | k in buckets :: buckets[k].Value()
    }

    constructor (rps: int, burst: int)
      ensures Valid() && Value() == map[] && capacity == burst as real && rate == rps as real
    {
      rate, capacity := rps as real, burst as real;
      buckets := map[];
    }

    /** The key's bucket, made full at its first call. */
    method BucketOf(key: string, now: real) returns (b: TokenBucket)
      requires Valid()
      modifies this
      ensures Valid() && key in buckets && b == buckets[key] && fresh(buckets.Values - old(buckets.Values))
      ensures Value() == old(Value())[key := BucketFor(Limits(capacity, rate), old(Value()), Call(key, now))]
    {
      if key !in buckets {
        b := new TokenBucket(rate, capacity, now);
        buckets := buckets[key := b];
      }
      b := buckets[key];
      assert key in buckets.Keys;
    }

    method TryTake(key: string, now: real) returns (ok: bool)
      requires Valid()
      modifies this, buckets.Values
      ensures Valid() && fresh(buckets.Values - old(buckets.Values))
      ensures (Value(), ok) == Admit(Limits(capacity, rate), old(Value()), Call(key, now))
    {
      var b := BucketOf(key, now);
      ghost var before := Value();
      assert before[key] == b.Value();
      ok := b.TryTake(now);
      assert Value() == before[key := b.Value()];
      assert Value() == old(Value())[key := b.Value()];
    }
  }
}

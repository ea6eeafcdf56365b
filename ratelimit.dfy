/** The token-bucket rate limiter of lib/ratelimit.go.

    A bucket holds up to `capacity` tokens. Tokens flow in lazily at `rate`
    per second: each call first tops the bucket up by the time elapsed since
    the previous top-up (never past the capacity), then an admission takes one
    whole token if there is one.

    The module has two layers. The functions over the `Bucket` value state what
    each operation does; the class `TokenBucketRateLimiter` is the mutable
    object of the Go code, and each of its methods is proved to move its fields
    exactly as the matching function says. The wall clock is an explicit `now`
    argument (nanoseconds of a monotonic clock) and every call is one atomic
    step, as the mutex around `Allow` makes it. */
module RateLimit {
  import opened Time

  /** The two settings fixed when a limiter is created. */
  datatype Config = Config(rate: real, capacity: nat)

  /** The code does not check its settings; the model considers non-negative rates. */
  predicate ValidConfig(c: Config) {
    c.rate >= 0.0
  }

  /** The part of a limiter that changes: the tokens on hand and the time of the last top-up. */
  datatype Bucket = Bucket(tokens: real, lastRefill: int)

  /** The limiter's invariant: the token count is never negative and never above the capacity. */
  predicate Inv(c: Config, b: Bucket) {
    0.0 <= b.tokens <= c.capacity as real
  }

  /** The smaller of two numbers (the `min` helper). */
  function Min(a: real, b: real): (r: real)
    ensures r <= a && r <= b
    ensures r == a || r == b
  {
    if a < b then a else b
  }

  /** The time between two clock readings, in seconds. */
  function ElapsedSeconds(from: int, to: int): (s: real)
    requires from <= to
    ensures s >= 0.0
    ensures s == 0.0 <==> from == to
  {
    (to - from) as real / Second as real
  }

  /** The tokens earned between two clock readings: elapsed seconds times the rate. */
  function Earned(c: Config, from: int, to: int): (e: real)
    requires ValidConfig(c) && from <= to
    ensures e >= 0.0
    ensures from == to ==> e == 0.0
  {
    ElapsedSeconds(from, to) * c.rate
  }

  /** The bucket of a limiter created at time `now`: full. */
  function Full(c: Config, now: int): (b: Bucket)
    ensures Inv(c, b) && b.lastRefill == now
    ensures forall x: Bucket :: Inv(c, x) ==> x.tokens <= b.tokens
  {
    Bucket(c.capacity as real, now)
  }

  /** The bucket after a top-up at time `now`: the tokens earned since the last
      top-up are added and the sum is capped at the capacity. */
  function Refilled(c: Config, b: Bucket, now: int): (r: Bucket)
    requires ValidConfig(c) && Inv(c, b) && b.lastRefill <= now
    ensures Inv(c, r) && r.lastRefill == now
    ensures b.tokens <= r.tokens
    ensures var earned := Earned(c, b.lastRefill, now);
      r.tokens <= b.tokens + earned && (r.tokens == c.capacity as real || r.tokens == b.tokens + earned)
  {
    var newTokens := Earned(c, b.lastRefill, now);
    Bucket(Min(c.capacity as real, b.tokens + newTokens), now)
  }

  /** The outcome of one admission check and the bucket it leaves. */
  datatype Decision = Decision(admitted: bool, after: Bucket)

  /** One call of `Allow` at time `now`: top up, then take a token if a whole one is there. */
  function Admit(c: Config, b: Bucket, now: int): (d: Decision)
    requires ValidConfig(c) && Inv(c, b) && b.lastRefill <= now
    ensures Inv(c, d.after) && d.after.lastRefill == now
    ensures d.admitted <==> Refilled(c, b, now).tokens >= 1.0
    ensures d.admitted ==> d.after.tokens == Refilled(c, b, now).tokens - 1.0
    ensures !d.admitted ==> d.after == Refilled(c, b, now)
    ensures d.after.tokens >= b.tokens - 1.0
  {
    var r := Refilled(c, b, now);
    if r.tokens >= 1.0 then Decision(true, r.(tokens := r.tokens - 1.0)) else Decision(false, r)
  }

  /** Clock readings that never go back, starting no earlier than `start`. */
  predicate Ordered(start: int, times: seq<int>)
    decreases |times|
  {
    times == [] || (start <= times[0] && Ordered(times[0], times[1..]))
  }

  /** `n` copies of `x`. */
  function Repeat<T>(x: T, n: nat): (s: seq<T>)
    ensures |s| == n
  {
    if n == 0 then [] else [x] + Repeat(x, n - 1)
  }

  lemma {:induction false} RepeatAt<T>(x: T, n: nat)
    ensures forall i :: 0 <= i < n ==> Repeat(x, n)[i] == x
  {
    if n > 0 {
      RepeatAt(x, n - 1);
    }
  }

  /** The answers of consecutive `Allow` calls made at the given times. */
  function Decisions(c: Config, b: Bucket, times: seq<int>): (ds: seq<bool>)
    requires ValidConfig(c) && Inv(c, b) && Ordered(b.lastRefill, times)
    ensures |ds| == |times|
    decreases |times|
  {
    if times == [] then []
    else
      var d := Admit(c, b, times[0]);
      [d.admitted] + Decisions(c, d.after, times[1..])
  }

  lemma {:induction false} OrderedRepeat(t: int, n: nat)
    ensures Ordered(t, Repeat(t, n))
  {
    if n > 0 {
      OrderedRepeat(t, n - 1);
    }
  }

  /** A bucket holding exactly `k` whole tokens, asked `k + 1` times at one
      instant, admits the first `k` calls and denies the last. */
  lemma {:induction false} DrainAtOneInstant(c: Config, t: int, k: nat)
    requires ValidConfig(c) && k <= c.capacity
    ensures Ordered(t, Repeat(t, k + 1))
    ensures Decisions(c, Bucket(k as real, t), Repeat(t, k + 1)) == Repeat(true, k) + [false]
  {
    OrderedRepeat(t, k + 1);
    var b := Bucket(k as real, t);
    var d := Admit(c, b, t);
    assert Refilled(c, b, t).tokens == k as real;
    if k == 0 {
      assert !d.admitted;
    } else {
      assert d.admitted && d.after == Bucket((k - 1) as real, t);
      DrainAtOneInstant(c, t, k - 1);
    }
  }

  /** The burst is exactly the capacity: a new limiter admits `capacity`
      calls made at its creation instant and denies the next one. */
  lemma BurstIsCapacity(c: Config, t: int)
    requires ValidConfig(c)
    ensures Ordered(t, Repeat(t, c.capacity + 1))
    ensures Decisions(c, Full(c, t), Repeat(t, c.capacity + 1)) == Repeat(true, c.capacity) + [false]
  {
    DrainAtOneInstant(c, t, c.capacity);
  }

  /** The bucket after consecutive `Allow` calls made at the given times. */
  function After(c: Config, b: Bucket, times: seq<int>): (a: Bucket)
    requires ValidConfig(c) && Inv(c, b) && Ordered(b.lastRefill, times)
    ensures Inv(c, a)
    decreases |times|
  {
    if times == [] then b else After(c, Admit(c, b, times[0]).after, times[1..])
  }

  /** A bucket holding at least `k` tokens, asked `k` times at the instant of
      its last top-up, admits every call and ends exactly `k` tokens lower. */
  lemma {:induction false} DrainAny(c: Config, b: Bucket, k: nat)
    requires ValidConfig(c) && Inv(c, b) && b.tokens >= k as real
    ensures Ordered(b.lastRefill, Repeat(b.lastRefill, k))
    ensures Decisions(c, b, Repeat(b.lastRefill, k)) == Repeat(true, k)
    ensures After(c, b, Repeat(b.lastRefill, k)).tokens == b.tokens - k as real
    decreases k
  {
    var t := b.lastRefill;
    OrderedRepeat(t, k);
    if k > 0 {
      var d := Admit(c, b, t);
      assert Refilled(c, b, t).tokens == b.tokens;
      assert d.admitted && d.after == Bucket(b.tokens - 1.0, t);
      assert Repeat(t, k)[1..] == Repeat(t, k - 1);
      DrainAny(c, d.after, k - 1);
    }
  }

  /** Tokens earned and clock readings agree: a gap earns a whole token
      exactly when it lasts at least `1 / rate` seconds, `Second` nanoseconds
      being one second. */
  lemma EarnedWholeTokenIffSpaced(c: Config, from: int, to: int)
    requires ValidConfig(c) && from <= to
    ensures Earned(c, from, to) >= 1.0 <==> (to - from) as real * c.rate >= Second as real
  {
    assert Earned(c, from, to) * Second as real == (to - from) as real * c.rate;
  }

  /** Consecutive calls at least `1 / rate` seconds apart. */
  predicate Spaced(c: Config, times: seq<int>)
    decreases |times|
  {
    |times| <= 1 ||
    (times[0] <= times[1] && ValidConfig(c) && Earned(c, times[0], times[1]) >= 1.0 && Spaced(c, times[1..]))
  }

  /** If the first call finds a whole token and later calls are spaced at
      least `1 / rate` seconds apart, no call is ever denied. */
  lemma {:induction false} SpacedCallsAdmitted(c: Config, b: Bucket, times: seq<int>)
    requires ValidConfig(c) && c.capacity >= 1 && Inv(c, b)
    requires Ordered(b.lastRefill, times) && Spaced(c, times)
    requires times != [] ==> Refilled(c, b, times[0]).tokens >= 1.0
    ensures Decisions(c, b, times) == Repeat(true, |times|)
    decreases |times|
  {
    if times != [] {
      var d := Admit(c, b, times[0]);
      if |times| > 1 {
        var r := Refilled(c, d.after, times[1]);
        assert Earned(c, d.after.lastRefill, times[1]) >= 1.0;
        assert r.tokens >= 1.0;
        SpacedCallsAdmitted(c, d.after, times[1..]);
      }
    }
  }

  /** A new limiter with capacity at least one never denies calls spaced at
      least `1 / rate` seconds apart. */
  lemma SpacedFromFullAdmitted(c: Config, t: int, times: seq<int>)
    requires ValidConfig(c) && c.capacity >= 1
    requires Ordered(t, times) && Spaced(c, times)
    ensures Decisions(c, Full(c, t), times) == Repeat(true, |times|)
  {
    SpacedCallsAdmitted(c, Full(c, t), times);
  }

  /** However long the bucket stood idle, a top-up never lifts it above the capacity. */
  lemma IdleRefillCapped(c: Config, b: Bucket, now: int)
    requires ValidConfig(c) && Inv(c, b) && b.lastRefill <= now
    requires Earned(c, b.lastRefill, now) >= c.capacity as real
    ensures Refilled(c, b, now).tokens == c.capacity as real
  {
  }

  /** The index of the first admission among the answers, or their number if there is none. */
  function FirstAdmission(ds: seq<bool>): (k: nat)
    ensures k <= |ds|
    ensures k < |ds| ==> ds[k]
    ensures forall j :: 0 <= j < k ==> !ds[j]
  {
    if ds == [] || ds[0] then 0 else 1 + FirstAdmission(ds[1..])
  }

  /** How a blocking wait ended: admitted, cancelled (the context's error), or
      still polling when the observed run of clock readings ran out. */
  datatype WaitOutcome = Admitted | Cancelled | Pending

  datatype WaitRun = WaitRun(outcome: WaitOutcome, after: Bucket)

  /** `Wait`: poll `Allow` at the given times. The context is found cancelled
      at the loop turn numbered `cancelAt` and every later one, and it is
      checked before each attempt. */
  function Await(c: Config, b: Bucket, times: seq<int>, cancelAt: nat): (w: WaitRun)
    requires ValidConfig(c) && Inv(c, b) && Ordered(b.lastRefill, times)
    ensures Inv(c, w.after)
    decreases |times|
  {
    if cancelAt == 0 then WaitRun(Cancelled, b)
    else if times == [] then WaitRun(Pending, b)
    else
      var d := Admit(c, b, times[0]);
      if d.admitted then WaitRun(Admitted, d.after) else Await(c, d.after, times[1..], cancelAt - 1)
  }

  /** `Wait` returns success exactly at the first `Allow` that admits, unless
      the context is seen cancelled before that attempt. */
  lemma {:induction false} AwaitStopsAtFirstAdmission(c: Config, b: Bucket, times: seq<int>, cancelAt: nat)
    requires ValidConfig(c) && Inv(c, b) && Ordered(b.lastRefill, times)
    ensures var k := FirstAdmission(Decisions(c, b, times));
      Await(c, b, times, cancelAt).outcome ==
        if cancelAt <= k then Cancelled else if k < |times| then Admitted else Pending
    decreases |times|
  {
    if cancelAt != 0 && times != [] {
      var d := Admit(c, b, times[0]);
      if !d.admitted {
        AwaitStopsAtFirstAdmission(c, d.after, times[1..], cancelAt - 1);
      }
    }
  }

  /** A wait that is cancelled (or still polling) has consumed no token; a
      wait that succeeds has consumed at most one beyond what refills brought. */
  lemma {:induction false} AwaitConsumesAtMostOne(c: Config, b: Bucket, times: seq<int>, cancelAt: nat)
    requires ValidConfig(c) && Inv(c, b) && Ordered(b.lastRefill, times)
    ensures var w := Await(c, b, times, cancelAt);
      (w.outcome != Admitted ==> w.after.tokens >= b.tokens) &&
      (w.outcome == Admitted ==> w.after.tokens >= b.tokens - 1.0)
    ensures cancelAt == 0 ==> Await(c, b, times, cancelAt).after == b
    decreases |times|
  {
    if cancelAt != 0 && times != [] {
      var d := Admit(c, b, times[0]);
      if !d.admitted {
        AwaitConsumesAtMostOne(c, d.after, times[1..], cancelAt - 1);
      }
    }
  }

  /** The mutable limiter object (`TokenBucketRateLimiter`). */
  class TokenBucketRateLimiter {
    const rate: real
    const capacity: nat
    var tokens: real
    var lastRefill: int

    function Settings(): Config {
      Config(rate, capacity)
    }

    function State(): Bucket
      reads this
    {
      Bucket(tokens, lastRefill)
    }

    ghost predicate Valid()
      reads this
    {
      ValidConfig(Settings()) && Inv(Settings(), State())
    }

    /** `NewTokenBucketRateLimiter`: a full bucket, last topped up at creation. */
    constructor (rate: real, capacity: nat, now: int)
      requires rate >= 0.0
      ensures Valid()
      ensures GetRate() == rate && GetCapacity() == capacity
      ensures State() == Full(Settings(), now)
    {
      this.rate := rate;
      this.capacity := capacity;
      tokens := capacity as real;
      lastRefill := now;
    }

    /** `GetRate`: the refill rate in tokens per second, never negative in a valid limiter. */
    function GetRate(): (r: real)
      ensures r == Settings().rate
      ensures ValidConfig(Settings()) ==> r >= 0.0
    {
      rate
    }

    /** `GetCapacity`: the bound on the tokens any valid bucket of this limiter holds. */
    function GetCapacity(): (r: nat)
      ensures r == Settings().capacity
      ensures forall b: Bucket :: Inv(Settings(), b) ==> b.tokens <= r as real
    {
      capacity
    }

    /** `refill`: add the tokens earned since the last top-up, capped at the capacity. */
    method Refill(now: int)
      requires Valid() && lastRefill <= now
      modifies this
      ensures Valid()
      ensures State() == Refilled(Settings(), old(State()), now)
      ensures old(tokens) <= tokens
    {
      var elapsed := ElapsedSeconds(lastRefill, now);
      var newTokens := elapsed * rate;
      assert newTokens == Earned(Settings(), lastRefill, now);
      tokens := Min(capacity as real, tokens + newTokens);
      lastRefill := now;
    }

    /** `Allow`: top up, then consume one token if at least one is there. */
    method Allow(now: int) returns (ok: bool)
      requires Valid() && lastRefill <= now
      modifies this
      ensures Valid()
      ensures Decision(ok, State()) == Admit(Settings(), old(State()), now)
    {
      Refill(now);
      if tokens >= 1.0 {
        tokens := tokens - 1.0;
        return true;
      }
      return false;
    }

    /** `Wait`: check the context, then try `Allow`; repeat until admitted or
        cancelled. `times[i]` is the clock at the `i`-th attempt (the pause
        between attempts is not modelled) and the context is cancelled from
        loop turn `cancelAt` on. */
    method Wait(times: seq<int>, cancelAt: nat) returns (outcome: WaitOutcome)
      requires Valid() && Ordered(lastRefill, times)
      modifies this
      ensures Valid()
      ensures WaitRun(outcome, State()) == Await(Settings(), old(State()), times, cancelAt)
    {
      var i := 0;
      while true
        invariant i <= |times| && i <= cancelAt
        invariant Valid() && Ordered(lastRefill, times[i..])
        invariant Await(Settings(), old(State()), times, cancelAt) == Await(Settings(), State(), times[i..], cancelAt - i)
        decreases |times| - i
      {
        if i == cancelAt {
          return Cancelled;
        }
        if i == |times| {
          return Pending;
        }
        var ok := Allow(times[i]);
        if ok {
          return Admitted;
        }
        assert times[i..][1..] == times[i + 1..];
        i := i + 1;
      }
    }
  }
}

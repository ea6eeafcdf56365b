/** The admission gate of pkg/server.go.

    Every request to the server passes through the rate-limit middleware,
    which asks the limiter once and either answers 429 itself or hands the
    request to the root handler; the root handler answers 405 to anything but
    GET and 200 to GET. The limiter is consulted before the method is looked
    at, so an admitted request with the wrong method still spends a token. */
module Server {
  import opened RateLimit
  import opened Http

  /** A response body. `http.Error` writes its message followed by a newline;
      the greeting of a processed request carries a timestamp, which is not modelled. */
  datatype Body = ErrorText(text: string) | Greeting

  datatype Response = Response(status: int, body: Body)

  /** `handleRoot`: only GET is served. */
  function HandleRoot(verb: string): (r: Response)
    ensures r.status == StatusOK <==> verb == MethodGet
    ensures r.status == StatusMethodNotAllowed <==> verb != MethodGet
    ensures verb != MethodGet ==> r.body == ErrorText("Method not allowed\n")
  {
    if verb != MethodGet then Response(StatusMethodNotAllowed, ErrorText("Method not allowed\n"))
    else Response(StatusOK, Greeting)
  }

  /** What one request produces: the response, whether the downstream handler
      ran, and the limiter's bucket afterwards. */
  datatype Served = Served(response: Response, handlerRan: bool, after: Bucket)

  /** `rateLimitMiddleware` wrapped around `handleRoot`, for a request arriving
      at time `now` while the limiter holds bucket `b`. */
  function Serve(c: Config, b: Bucket, now: int, verb: string): (s: Served)
    requires ValidConfig(c) && Inv(c, b) && b.lastRefill <= now
    ensures var available := Refilled(c, b, now).tokens;
      && (s.response.status == StatusTooManyRequests <==> available < 1.0)
      && (s.handlerRan <==> available >= 1.0)
      && (s.response.status == StatusMethodNotAllowed <==> available >= 1.0 && verb != MethodGet)
      && (s.response.status == StatusOK <==> available >= 1.0 && verb == MethodGet)
      && (s.handlerRan ==> s.after.tokens == available - 1.0)
      && (!s.handlerRan ==> s.after.tokens == available)
    ensures !s.handlerRan ==> s.response == Response(StatusTooManyRequests, ErrorText("Rate limit exceeded\n"))
    ensures s.handlerRan ==> s.response == HandleRoot(verb)
    ensures Inv(c, s.after) && s.after.lastRefill == now
    ensures s.after.tokens >= b.tokens - 1.0
  {
    var d := Admit(c, b, now);
    if !d.admitted then Served(Response(StatusTooManyRequests, ErrorText("Rate limit exceeded\n")), false, d.after)
    else Served(HandleRoot(verb), true, d.after)
  }

  /** Requests served one after another at the given times: their status codes. */
  function Statuses(c: Config, b: Bucket, times: seq<int>, methods: seq<string>): (codes: seq<int>)
    requires ValidConfig(c) && Inv(c, b) && Ordered(b.lastRefill, times) && |methods| == |times|
    ensures |codes| == |times|
    decreases |times|
  {
    if times == [] then []
    else
      var s := Serve(c, b, times[0], methods[0]);
      [s.response.status] + Statuses(c, s.after, times[1..], methods[1..])
  }

  /** The server's answers follow the limiter's decisions one for one: a
      request is refused with 429 exactly when `Allow` denies it, whatever
      the methods of the earlier requests were. */
  lemma {:induction false} StatusesFollowDecisions(c: Config, b: Bucket, times: seq<int>, methods: seq<string>)
    requires ValidConfig(c) && Inv(c, b) && Ordered(b.lastRefill, times) && |methods| == |times|
    ensures var codes := Statuses(c, b, times, methods);
      var ds := Decisions(c, b, times);
      forall i :: 0 <= i < |times| ==>
        (codes[i] == StatusTooManyRequests <==> !ds[i]) &&
        (codes[i] == StatusOK <==> ds[i] && methods[i] == MethodGet)
    decreases |times|
  {
    if times != [] {
      StatusesFollowDecisions(c, Admit(c, b, times[0]).after, times[1..], methods[1..]);
    }
  }

  /** A new server asked `capacity + 1` times at its creation instant answers
      every request with the limiter's verdict: the first `capacity` are let
      through to the handler, the last is refused with 429. */
  lemma BurstThenTooManyRequests(c: Config, t: int, methods: seq<string>)
    requires ValidConfig(c) && |methods| == c.capacity + 1
    ensures Ordered(t, Repeat(t, c.capacity + 1))
    ensures var codes := Statuses(c, Full(c, t), Repeat(t, c.capacity + 1), methods);
      codes[c.capacity] == StatusTooManyRequests &&
      forall i :: 0 <= i < c.capacity ==> codes[i] != StatusTooManyRequests
  {
    BurstIsCapacity(c, t);
    StatusesFollowDecisions(c, Full(c, t), Repeat(t, c.capacity + 1), methods);
    var ds := Decisions(c, Full(c, t), Repeat(t, c.capacity + 1));
    assert forall i :: 0 <= i < c.capacity ==> ds[i] == Repeat(true, c.capacity)[i];
    RepeatAt(true, c.capacity);
  }

  /** The server object (`Server`): its address and the limiter it owns. */
  class Server {
    const addr: string
    const limiter: TokenBucketRateLimiter

    /** `NewServer`: a limiter with exactly the given rate and capacity, starting full. */
    constructor (addr: string, rate: real, capacity: nat, now: int)
      requires rate >= 0.0
      ensures this.addr == addr && fresh(limiter) && limiter.Valid()
      ensures limiter.GetRate() == rate && limiter.GetCapacity() == capacity
      ensures limiter.State() == Full(limiter.Settings(), now)
    {
      this.addr := addr;
      limiter := new TokenBucketRateLimiter(rate, capacity, now);
    }

    /** One request through `rateLimitMiddleware(handleRoot)`: one call of
        `Allow`, then the handler only if admitted. */
    method HandleRequest(verb: string, now: int) returns (response: Response, handlerRan: bool)
      requires limiter.Valid() && limiter.lastRefill <= now
      modifies limiter
      ensures limiter.Valid()
      ensures Served(response, handlerRan, limiter.State()) == Serve(limiter.Settings(), old(limiter.State()), now, verb)
    {
      var ok := limiter.Allow(now);
      if !ok {
        return Response(StatusTooManyRequests, ErrorText("Rate limit exceeded\n")), false;
      }
      response := HandleRoot(verb);
      handlerRan := true;
    }
  }
}

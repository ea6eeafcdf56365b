# Token-bucket rate-limited server and its load generator, in Dafny

This project models the core of `ratelimit-server`, a small Go program with three parts:

- **The token-bucket limiter** (`lib/ratelimit.go`, module `RateLimit`). A bucket holds at most
  `capacity` tokens. Each call of `Allow` first tops the bucket up lazily with
  `elapsed seconds × rate` tokens, capped at `capacity`. It then takes one token if at least one
  whole token is there. `Wait` polls `Allow` until it admits, checking the context before each
  attempt.
  - The model has two layers. Functions over a `Bucket` value (`Refilled`, `Admit`, `Decisions`,
    `Await`) say what each operation does.
  - The class `TokenBucketRateLimiter` is the mutable Go object. Its `rate` and `capacity` are
    `const`, and `Refill`, `Allow` and `Wait` are proved to update `tokens` and `lastRefill`
    exactly as those functions say.
  - The invariant `0 <= tokens <= capacity` holds in every reachable state.
  - Refill never lowers the token count.
  - `k` calls made at the instant of the last top-up, against a bucket holding at least `k`
    tokens, are all admitted and lower it by exactly `k`.
  - The burst is exactly `capacity`: that many calls at one instant are admitted, and the next
    one is denied.
  - With `capacity >= 1`, calls spaced at least `1 / rate` seconds apart, starting from a full
    bucket, are never denied.
  - `Wait` succeeds exactly at the first admitting `Allow`, unless it finds the context cancelled
    first. A cancelled wait consumes no token.
- **The admission gate** (`pkg/server.go`, module `Server`). The rate-limit middleware asks the
  limiter once per request.
  - A denied request gets 429 and the root handler does not run.
  - An admitted request goes to the root handler, which answers 200 to GET and 405 to any other
    method.
  - Because the limiter runs first, an admitted non-GET request still spends a token.
- **The load generator's bookkeeping** (`pkg/client.go`, module `LoadClient`).
  - It computes the pacing interval `time.Second / requestRate` with Go's integer division. A zero
    rate panics with a division by zero, and a non-positive interval makes `time.NewTicker` panic.
  - Each worker stops at its first tick read after the end time, or when it sees the context
    cancelled.
  - Each sent request is counted as a success (200), a rate-limit refusal (429) or an error (a
    transport failure or any other status).
  - The report is the three counters and their sum. For every run, including one in which every
    worker has returned, the sum equals the number of requests sent: the ticks read no later than
    the end time by existing workers that had not returned before them.
  - The goroutines are replaced by one interleaving of worker observations (`Event`s). Each
    event takes effect at one moment: at its counter update, which the mutex serialises, or at
    its worker's return. The tick receive, the clock read and `SendRequest` happen outside the
    mutex, so each event's clock reading `at` is unconstrained, and readings of different workers
    may interleave in any order.

Clocks are explicit arguments in nanoseconds of a monotonic clock: `now` for the limiter, `start`
and each tick's `at` for the load generator. Module `Http` holds the status codes and the `GET`
method name shared by the server and the client, and module `Time` holds `time.Second`, shared by
the limiter and the client.

Two facts about the code shape the model:

- The code validates neither `rate` nor `capacity` when it builds a limiter. The model requires
  `rate >= 0` and types `capacity` as a natural number.
- All workers receive from one shared ticker channel (`pkg/client.go:64`, `pkg/client.go:80`), and
  each tick is delivered to exactly one worker. The ticks are therefore divided among the workers,
  and together they send at most one request per tick, that is, per interval of
  ⌊10^9 / requestRate⌋ ns. Because the interval is truncated, that is `requestRate` requests
  per second only when `requestRate` divides 10^9, and more otherwise. In the model each `Tick`
  event names the one worker that received it.

## Model

| member | source | states |
|---|---|---|
| `RateLimit.Min` | lib/ratelimit.go:84-90 | the result is the smaller of its two arguments: at most both, and equal to one |
| `RateLimit.ElapsedSeconds` | lib/ratelimit.go:46-47 | the elapsed time between two ordered clock readings is non-negative, and zero exactly when the readings are equal |
| `RateLimit.Earned` | lib/ratelimit.go:50 | the tokens earned since the last refill, `elapsed × rate`, are never negative, and are zero when no time has passed |
| `RateLimit.Full` | lib/ratelimit.go:35-42 | a new limiter's bucket holds `capacity` tokens, the most any valid bucket can hold, and was last refilled at creation |
| `RateLimit.Refilled` | lib/ratelimit.go:45-53 | after a refill, tokens are `min(capacity, old + elapsed × rate)`, `lastRefill` is `now`, the invariant `0 <= tokens <= capacity` holds, and tokens never decrease |
| `RateLimit.Admit` | lib/ratelimit.go:56-67 | `Allow` admits iff the refilled count is at least 1. If admitted, tokens become refilled − 1; if denied, they stay at the refilled value. The invariant is kept, and at most one token is consumed |
| `RateLimit.DrainAtOneInstant` | lib/ratelimit.go:45-66 | a bucket with `k <= capacity` whole tokens, called `k + 1` times at one instant, admits `k` calls and denies the last |
| `RateLimit.BurstIsCapacity` | lib/ratelimit.go:35-66 | a new limiter admits exactly `capacity` calls made at its creation instant and denies the next one |
| `RateLimit.After` | lib/ratelimit.go:45-66 | any run of `Allow` calls leaves the bucket within `0 <= tokens <= capacity` |
| `RateLimit.DrainAny` | lib/ratelimit.go:45-66 | a bucket holding at least `k` tokens, asked `k` times at the instant of its last top-up, admits all `k` calls and ends exactly `k` tokens lower |
| `RateLimit.EarnedWholeTokenIffSpaced` | lib/ratelimit.go:46-50 | a gap between two clock readings earns a whole token iff it is at least `1 / rate` seconds (`(to − from) × rate >= 10^9` ns), which ties the spacing premise of the lemmas below to the clock |
| `RateLimit.SpacedCallsAdmitted` | lib/ratelimit.go:45-66 | if the first call finds a whole token and later calls are at least `1 / rate` seconds apart (capacity ≥ 1), every call is admitted |
| `RateLimit.SpacedFromFullAdmitted` | lib/ratelimit.go:35-66 | a new limiter with capacity ≥ 1 never denies calls spaced at least `1 / rate` seconds apart |
| `RateLimit.IdleRefillCapped` | lib/ratelimit.go:50-51 | however long the bucket was idle, a refill stops at `capacity` |
| `RateLimit.Await` | lib/ratelimit.go:70-82 | the polling run of `Wait` keeps the invariant `0 <= tokens <= capacity` |
| `RateLimit.AwaitStopsAtFirstAdmission` | lib/ratelimit.go:70-82 | `Wait` returns success exactly at the first `Allow` that admits. It returns the context error iff cancellation is seen at or before that attempt, and keeps polling otherwise |
| `RateLimit.AwaitConsumesAtMostOne` | lib/ratelimit.go:71-80 | a cancelled or unfinished wait never lowers the token count; a successful one lowers it by at most one. Cancellation seen at the first check leaves the bucket untouched |
| `RateLimit.TokenBucketRateLimiter.constructor` | lib/ratelimit.go:25-42 | the new limiter is full, last refilled at creation, satisfies the invariant, and `GetRate` and `GetCapacity` return the constructor's arguments. Both are `const`, so they never change |
| `RateLimit.TokenBucketRateLimiter.GetRate` | lib/ratelimit.go:25-27 | the getter returns the rate the limiter refills with, which is never negative in a valid limiter |
| `RateLimit.TokenBucketRateLimiter.GetCapacity` | lib/ratelimit.go:30-32 | the getter returns the capacity, which bounds the tokens of every valid bucket |
| `RateLimit.TokenBucketRateLimiter.Refill` | lib/ratelimit.go:45-53 | the fields become exactly `Refilled` of the old state, the invariant is kept, and tokens do not decrease |
| `RateLimit.TokenBucketRateLimiter.Allow` | lib/ratelimit.go:56-67 | the answer and the new fields are exactly `Admit` of the old state, and the invariant is kept |
| `RateLimit.TokenBucketRateLimiter.Wait` | lib/ratelimit.go:70-82 | the outcome and the new fields are exactly `Await` of the old state, with the context checked before each `Allow`; the invariant is kept |
| `Server.HandleRoot` | pkg/server.go:44-51 | the handler answers 200 iff the method is GET, and 405 "Method not allowed" iff it is not |
| `Server.Serve` | pkg/server.go:28-41 | a request gets 429 "Rate limit exceeded" without the handler iff the refilled count is below 1. If admitted, the handler runs and the answer is exactly the handler's own response: 405 for non-GET or 200 for GET. Exactly one token is spent whatever the method. No request spends more than one token |
| `Server.StatusesFollowDecisions` | pkg/server.go:28-41 | over any run of requests, each answer is 429 iff the limiter denied that call, and 200 iff it admitted it and the method is GET |
| `Server.BurstThenTooManyRequests` | pkg/server.go:20-41 | a new server answers `capacity` requests at its creation instant without 429, and the next one with 429 |
| `Server.Server.constructor` | pkg/server.go:20-25 | `NewServer` keeps the address and builds a fresh limiter with exactly the given rate and capacity, starting full |
| `Server.Server.HandleRequest` | pkg/server.go:28-51 | one request calls `Allow` once, then the handler only if admitted; its response, handler flag and new limiter state are exactly `Serve` of the old state |
| `LoadClient.TruncDiv` | pkg/client.go:52 | Go's truncating division of a non-negative number, which rounds toward zero: for a positive divisor `q·b <= a < (q+1)·b`, and for a negative divisor `q·b <= a < (q−1)·b` |
| `LoadClient.PacingInterval` | pkg/client.go:52-64 | the interval is `1_000_000_000 / requestRate` ns, at least 1, for `0 < requestRate <= 10^9`. A zero rate is a division-by-zero panic, and any other rate gives a non-positive interval that the ticker rejects |
| `LoadClient.Record` | pkg/client.go:86-109 | one request raises exactly one counter by exactly one. Success goes up iff the status is 200, rate-limited goes up iff it is 429, and errors cover transport failures and every other status |
| `LoadClient.TallyCounts` | pkg/client.go:55-109 | from zero, the counters hold the number of 200s, the number of 429s and the number of all other outcomes, and their sum is the number of recorded requests |
| `LoadClient.Step` | pkg/client.go:76-92 | one observation records its own response if and only if it is a tick read no later than the end time by an existing worker that has not returned; otherwise nothing is recorded. A later tick or a cancelled context ends that worker and no other; an observation of a missing or returned worker changes nothing |
| `LoadClient.ReturnedWorkerRecordsNothing` | pkg/client.go:73-92 | once a worker has returned, nothing it could observe later changes the recorded requests |
| `LoadClient.RecordedOnlyOnTime` | pkg/client.go:80-92 | every recorded response belongs to a tick read no later than the end time (multiset inclusion) |
| `LoadClient.EveryOnTimeTickRecorded` | pkg/client.go:76-110 | when every observation is an on-time tick of an existing worker, no worker stops and every response is recorded, in order |
| `LoadClient.ReplayRecordsSent` | pkg/client.go:71-112 | for every interleaving, the workers' loops record exactly the requests sent (`Sent`: the on-time ticks of existing workers not yet ended by an earlier event), in order, and the returned workers are exactly the existing ones some event has ended |
| `LoadClient.NoLostIncrements` | pkg/client.go:85-123 | for every interleaving, including one that ends with every worker returned and `wg.Wait()` done, the counters' sum equals the number of requests sent, and success and rate-limited are the numbers of 200s and 429s among them |
| `LoadClient.LoadTest` | pkg/client.go:44-124 | the run panics iff the pacing interval is invalid. Otherwise the counters, starting from zero, equal the tally of the requests the workers recorded, and the reported total is their sum |
| `LoadClient.ReportCountsEveryRequest` | pkg/client.go:116-123 | for a finished run's report, the printed total is the number of requests sent; success and rate-limited are the counts of 200s and 429s among them |

## Left out

- The mutexes (`lib/ratelimit.go:21`, the middle of `Allow`, `pkg/client.go:59`), the goroutines, the `sync.WaitGroup` and the shared `time.Ticker`. Each `Allow` and each counter update is one atomic step, and the load generator is modelled over a single interleaving of worker observations, each taking effect at its counter update or its worker's return.
- The ticker's timing. The interval is computed and checked, but when ticks fire is not modelled: each tick's receiving worker and reading time are given by the events.
- `time.Now()` calls. They are explicit clock arguments, and the limiter requires `now >= lastRefill`, as a monotonic clock guarantees.
- `time.Sleep` between `Wait` attempts.
- `RateLimit.TokenBucketRateLimiter.Wait`: the polling loop runs with nothing interleaved between its `Allow` calls. In Go, other goroutines' `Allow` calls could take tokens between two polls. Nothing in the repository calls `Wait`.
- `LoadClient.Replay` and `LoadClient.Tally` carry no contract of their own. What they compute is stated by `ReplayRecordsSent`, `NoLostIncrements` and `TallyCounts`.
- `RateLimit.TokenBucketRateLimiter.Wait`: the Go loop may poll forever. The model sees a finite run of attempt times and answers `Pending` when that run ends with neither admission nor cancellation.
- The `context.Context` argument of `Allow`, which the code never reads. The context of `Wait` is modelled as the attempt from which it is seen cancelled; `ctx.Err()` is the outcome `Cancelled`.
- The `RateLimiter` interface (`lib/ratelimit.go:9-13`). The class provides its two operations directly.
- Floating-point rounding. `tokens` and `rate` are mathematical reals, and `Duration.Seconds()` is exact division by 10^9.
- The limiter's settings. A negative `rate` or `capacity` is excluded by precondition, because the code does not validate them.
- `int64` overflow of the counters and saturation of `time.Time.Sub`. Integers are unbounded.
- HTTP plumbing: `NewClient`, `SendRequest`, reading response bodies, `ServeMux` routing, `Start` (which assigns the `server` field), `Stop`, `ListenAndServe` and `Shutdown`. Their results appear only as the given `Response` of each tick.
- The timestamped greeting of a 200 response. It is the value `Greeting`.
- All `fmt.Printf` and `log` output.
- The command-line entry points `main.go`, `cmd/client/main.go` and `cmd/server/main.go`: flag parsing, signal handling and shutdown timeouts.

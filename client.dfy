/** The load generator of pkg/client.go (`LoadTest`).

    Workers wake on a shared ticker; at each tick a worker reads the clock,
    returns if the run's end time has passed, and otherwise sends one request
    and counts its outcome as a success (200), a rate-limit refusal (429) or
    an error (a transport failure or any other status). At the end the three
    counters and their sum are reported.

    The goroutines are replaced by one interleaving of what the workers
    observe: a sequence of events, each a tick seen by one worker (with the
    clock it read and the response its request got) or the cancellation of
    the context seen by one worker. Each event takes effect at one moment: at
    its counter update, which the mutex serialises, or at its worker's return.
    The tick receive, the clock read and the request itself happen outside the
    mutex, so each event's clock reading `at` is left unconstrained; readings
    of different workers may interleave in any order. */
module LoadClient {
  import opened Http
  import opened Time

  /** Go's `/` on integers, which truncates toward zero, for a non-negative dividend. */
  function TruncDiv(a: nat, b: int): (q: int)
    requires b != 0
    ensures b > 0 ==> q * b <= a < (q + 1) * b
    ensures b < 0 ==> q * b <= a < (q - 1) * b
  {
    if b > 0 then a / b else -(a / -b)
  }

  /** The pacing interval, or the reason the run panics before any worker starts:
      a zero rate divides by zero, and a non-positive interval makes the ticker panic. */
  datatype Pacing = Interval(ns: int) | DivideByZero | NonPositiveInterval

  /** `time.Second / time.Duration(requestRate)`, and whether a ticker accepts it. */
  function PacingInterval(requestRate: int): (p: Pacing)
    ensures p.DivideByZero? <==> requestRate == 0
    ensures p.Interval? <==> 0 < requestRate <= Second
    ensures p.Interval? ==> 1 <= p.ns && p.ns * requestRate <= Second < (p.ns + 1) * requestRate
  {
    if requestRate == 0 then DivideByZero
    else
      var interval := TruncDiv(Second, requestRate);
      if interval <= 0 then NonPositiveInterval else Interval(interval)
  }

  /** What a request came back with: a transport error, or a response with a status code. */
  datatype Response = TransportError | Status(code: int)

  /** One thing a worker observes: a tick (with the clock it then reads and the
      response to the request it would send), or the cancelled context. */
  datatype Event = Tick(worker: nat, at: int, response: Response) | Done(worker: nat)

  /** The three outcome counters. */
  datatype Counters = Counters(success: nat, errors: nat, rateLimited: nat) {
    function Total(): nat {
      success + errors + rateLimited
    }
  }

  /** Count one request: exactly one counter goes up, by exactly one. */
  function Record(c: Counters, r: Response): (n: Counters)
    ensures n.Total() == c.Total() + 1
    ensures c.success <= n.success && c.errors <= n.errors && c.rateLimited <= n.rateLimited
    ensures n.success > c.success <==> r == Status(StatusOK)
    ensures n.rateLimited > c.rateLimited <==> r == Status(StatusTooManyRequests)
  {
    match r
    case TransportError => c.(errors := c.errors + 1)
    case Status(code) =>
      if code == StatusTooManyRequests then c.(rateLimited := c.rateLimited + 1)
      else if code == StatusOK then c.(success := c.success + 1)
      else c.(errors := c.errors + 1)
  }

  /** The counters after recording the given responses in order, from zero. */
  function Tally(rs: seq<Response>): Counters
    decreases |rs|
  {
    if rs == [] then Counters(0, 0, 0) else Record(Tally(rs[..|rs| - 1]), rs[|rs| - 1])
  }

  /** The counters hold the number of 200s, the number of 429s and the number
      of everything else, so together they count every recorded request. */
  lemma {:induction false} TallyCounts(rs: seq<Response>)
    ensures Tally(rs).success == multiset(rs)[Status(StatusOK)]
    ensures Tally(rs).rateLimited == multiset(rs)[Status(StatusTooManyRequests)]
    ensures Tally(rs).errors == |rs| - multiset(rs)[Status(StatusOK)] - multiset(rs)[Status(StatusTooManyRequests)]
    decreases |rs|
  {
    if rs != [] {
      var init := rs[..|rs| - 1];
      TallyCounts(init);
      assert rs == init + [rs[|rs| - 1]];
      assert multiset(rs) == multiset(init) + multiset{rs[|rs| - 1]};
    }
  }

  /** How far the run has got: the workers that have returned, and the
      responses recorded so far, in order. */
  datatype Progress = Progress(stopped: set<nat>, issued: seq<Response>)

  /** One event. Workers numbered `concurrency` or above do not exist, and a
      worker that has returned observes nothing more. A tick read after
      `endTime` (strictly after, as `time.Time.After` is) ends the worker
      without a request. */
  function Step(p: Progress, e: Event, concurrency: int, endTime: int): (n: Progress)
    ensures p.stopped <= n.stopped
    ensures n.issued == p.issued ||
      (e.Tick? && n.issued == p.issued + [e.response] && e.at <= endTime && e.worker < concurrency && e.worker !in p.stopped)
    ensures e.worker in n.stopped ==> n.issued == p.issued
    ensures (e.Done? || e.at > endTime) && e.worker < concurrency ==> e.worker in n.stopped
    ensures n.stopped <= p.stopped + {e.worker}
    ensures e.worker >= concurrency || e.worker in p.stopped ==> n == p
    ensures e.Tick? && e.at <= endTime && e.worker < concurrency && e.worker !in p.stopped ==>
      n == p.(issued := p.issued + [e.response])
  {
    if e.worker >= concurrency || e.worker in p.stopped then p
    else
      match e
      case Done(w) => p.(stopped := p.stopped + {w})
      case Tick(w, at, r) =>
        if at > endTime then p.(stopped := p.stopped + {w}) else p.(issued := p.issued + [r])
  }

  /** The run after the given events, from no worker returned and nothing recorded. */
  function Replay(events: seq<Event>, concurrency: int, endTime: int): Progress
    decreases |events|
  {
    if events == [] then Progress({}, [])
    else Step(Replay(events[..|events| - 1], concurrency, endTime), events[|events| - 1], concurrency, endTime)
  }

  /** Replaying one more event is one more `Step`. */
  lemma ReplayExtend(events: seq<Event>, i: nat, concurrency: int, endTime: int)
    requires i < |events|
    ensures Replay(events[..i + 1], concurrency, endTime) ==
      Step(Replay(events[..i], concurrency, endTime), events[i], concurrency, endTime)
  {
    assert events[..i + 1][..i] == events[..i];
  }

  /** Recording one more response is one more `Record`. */
  lemma TallyExtend(rs: seq<Response>, r: Response)
    ensures Tally(rs + [r]) == Record(Tally(rs), r)
  {
    assert (rs + [r])[..|rs|] == rs;
  }

  /** A worker that has returned records nothing afterwards, whatever it would have seen. */
  lemma {:induction false} ReturnedWorkerRecordsNothing(events: seq<Event>, later: seq<Event>, w: nat, concurrency: int, endTime: int)
    requires w in Replay(events, concurrency, endTime).stopped
    requires forall i :: 0 <= i < |later| ==> later[i].worker == w
    ensures w in Replay(events + later, concurrency, endTime).stopped
    ensures Replay(events + later, concurrency, endTime).issued == Replay(events, concurrency, endTime).issued
    decreases |later|
  {
    if later != [] {
      var init := later[..|later| - 1];
      ReturnedWorkerRecordsNothing(events, init, w, concurrency, endTime);
      assert (events + later)[..|events + later| - 1] == events + init;
    } else {
      assert events + later == events;
    }
  }

  /** The responses of the ticks read no later than the end time, in order. */
  function OnTimeResponses(events: seq<Event>, endTime: int): seq<Response>
    decreases |events|
  {
    if events == [] then []
    else
      var e := events[|events| - 1];
      OnTimeResponses(events[..|events| - 1], endTime) + (if e.Tick? && e.at <= endTime then [e.response] else [])
  }

  /** Every recorded response is the response of a tick read no later than the
      end time: a late tick, or a tick after a worker returned, records nothing. */
  lemma {:induction false} RecordedOnlyOnTime(events: seq<Event>, concurrency: int, endTime: int)
    ensures multiset(Replay(events, concurrency, endTime).issued) <= multiset(OnTimeResponses(events, endTime))
    decreases |events|
  {
    if events != [] {
      RecordedOnlyOnTime(events[..|events| - 1], concurrency, endTime);
    }
  }

  /** Every event is a tick of an existing worker, read no later than the end time. */
  predicate AllOnTime(events: seq<Event>, concurrency: int, endTime: int) {
    forall e | e in events :: e.Tick? && e.at <= endTime && e.worker < concurrency
  }

  /** No lost increments: when every event is a tick of an existing worker read
      no later than the end time, every one of them is recorded, in order. */
  lemma {:induction false} EveryOnTimeTickRecorded(events: seq<Event>, concurrency: int, endTime: int)
    requires AllOnTime(events, concurrency, endTime)
    ensures Replay(events, concurrency, endTime).stopped == {}
    ensures Replay(events, concurrency, endTime).issued == OnTimeResponses(events, endTime)
    decreases |events|
  {
    if events != [] {
      var init, e := events[..|events| - 1], events[|events| - 1];
      assert e in events;
      assert AllOnTime(init, concurrency, endTime) by {
        forall x | x in init ensures x in events { }
      }
      EveryOnTimeTickRecorded(init, concurrency, endTime);
    }
  }

  /** Event `e` ends worker `w`: the worker saw the cancelled context or a
      tick read after the end time. */
  predicate Ends(e: Event, w: nat, endTime: int) {
    e.worker == w && (e.Done? || e.at > endTime)
  }

  /** Worker `w` has returned once some event so far has ended it. */
  predicate Returned(events: seq<Event>, w: nat, endTime: int)
    decreases |events|
  {
    events != [] &&
    (Returned(events[..|events| - 1], w, endTime) || Ends(events[|events| - 1], w, endTime))
  }

  /** The requests sent, in order: the on-time ticks of existing workers that
      had not returned before them. */
  function Sent(events: seq<Event>, concurrency: int, endTime: int): seq<Response>
    decreases |events|
  {
    if events == [] then []
    else
      var init, e := events[..|events| - 1], events[|events| - 1];
      Sent(init, concurrency, endTime) +
        (if e.Tick? && e.at <= endTime && e.worker < concurrency && !Returned(init, e.worker, endTime)
         then [e.response] else [])
  }

  /** For every run, the workers' loops record exactly the requests sent, and
      the workers that have returned are exactly the existing ones an event has ended. */
  lemma {:induction false} ReplayRecordsSent(events: seq<Event>, concurrency: int, endTime: int)
    ensures Replay(events, concurrency, endTime).issued == Sent(events, concurrency, endTime)
    ensures forall w: nat :: w in Replay(events, concurrency, endTime).stopped <==>
      w < concurrency && Returned(events, w, endTime)
    decreases |events|
  {
    if events != [] {
      ReplayRecordsSent(events[..|events| - 1], concurrency, endTime);
    }
  }

  /** No lost increments, for every run including one that ends with every
      worker returned: the counters add up to the number of requests sent and
      split them into 200s, 429s and the rest. */
  lemma NoLostIncrements(events: seq<Event>, concurrency: int, endTime: int)
    ensures var counts := Tally(Replay(events, concurrency, endTime).issued);
      var sent := Sent(events, concurrency, endTime);
      counts.Total() == |sent| &&
      counts.success == multiset(sent)[Status(StatusOK)] &&
      counts.rateLimited == multiset(sent)[Status(StatusTooManyRequests)]
  {
    ReplayRecordsSent(events, concurrency, endTime);
    TallyCounts(Sent(events, concurrency, endTime));
  }

  /** What the run reports: a panic before any worker started, or the three
      counters and their sum. */
  datatype Report = Panicked(message: string) | Finished(counts: Counters, total: nat)

  /** `LoadTest`: `start` is the clock when the end time is fixed, `duration`
      is in nanoseconds, and `events` is what the workers observed, in the
      order their steps took effect. */
  method LoadTest(concurrency: int, duration: int, requestRate: int, start: int, events: seq<Event>) returns (report: Report)
    ensures report.Panicked? <==> !PacingInterval(requestRate).Interval?
    ensures report.Finished? ==>
      var issued := Replay(events, concurrency, start + duration).issued;
      report.counts == Tally(issued) && report.total == report.counts.Total()
  {
    var interval := PacingInterval(requestRate);
    if interval.DivideByZero? {
      return Panicked("runtime error: integer divide by zero");
    }
    if interval.NonPositiveInterval? {
      return Panicked("non-positive interval for NewTicker");
    }
    var successCount, errorCount, rateLimitCount: nat := 0, 0, 0;
    var endTime := start + duration;
    var stopped: set<nat> := {};
    for i := 0 to |events|
      invariant stopped == Replay(events[..i], concurrency, endTime).stopped
      invariant Counters(successCount, errorCount, rateLimitCount) == Tally(Replay(events[..i], concurrency, endTime).issued)
    {
      ReplayExtend(events, i, concurrency, endTime);
      var e := events[i];
      if e.worker < concurrency && e.worker !in stopped {
        match e
        case Done(w) =>
          stopped := stopped + {w};
        case Tick(w, at, resp) =>
          if at > endTime {
            stopped := stopped + {w};
          } else {
            TallyExtend(Replay(events[..i], concurrency, endTime).issued, resp);
            match resp
            case TransportError =>
              errorCount := errorCount + 1;
            case Status(code) =>
              if code == StatusTooManyRequests {
                rateLimitCount := rateLimitCount + 1;
              } else if code == StatusOK {
                successCount := successCount + 1;
              } else {
                errorCount := errorCount + 1;
              }
          }
      }
    }
    assert events[..|events|] == events;
    report := Finished(Counters(successCount, errorCount, rateLimitCount), successCount + errorCount + rateLimitCount);
  }

  /** The reported total is the number of requests the workers sent, and the
      counters split it by status: 200s, 429s, and everything else. `endTime`
      is the deadline `start + duration` of the run. */
  lemma ReportCountsEveryRequest(concurrency: int, endTime: int, events: seq<Event>, report: Report)
    requires report.Finished?
    requires report.counts == Tally(Replay(events, concurrency, endTime).issued)
    requires report.total == report.counts.Total()
    ensures var sent := Sent(events, concurrency, endTime);
      report.total == |sent| &&
      report.counts.success == multiset(sent)[Status(StatusOK)] &&
      report.counts.rateLimited == multiset(sent)[Status(StatusTooManyRequests)]
  {
    NoLostIncrements(events, concurrency, endTime);
  }
}

/** src/middleware/rateLimit.middleware.ts: the two express-rate-limit
    instances, `apiLimiter` (100 requests per IP per 15 minutes) and
    `authLimiter` (5 counted attempts, successful requests not counted), their
    `DISABLE_RATE_LIMIT` bypass, and the handlers that count a rejection in
    `rutafem_rate_limit_hits_total` and answer 429. The counting follows the
    library's in-memory store: a per-IP count with its own reset instant,
    incremented before the limit is compared and, with
    `skipSuccessfulRequests`, decremented again when the response finishes
    with a status below 400. */
module RateLimit {
  import opened Wrappers
  import opened Http

  /** `windowMs: 15 * 60 * 1000` */
  const WindowMs: int := 15 * 60 * 1000

  /** Rate limiting is off exactly when the variable is the string `true`. */
  predicate SkipRateLimit(disableRateLimit: Option<string>) {
    disableRateLimit == Some("true")
  }

  /** The options that differ between the two limiters. */
  datatype Policy = Policy(counterLabel: string, max: nat, message: string, skipSuccessful: bool)

  const ApiPolicy: Policy := Policy("api", 100, "Too many requests, try again later", false)
  const AuthPolicy: Policy := Policy("auth", 5, "Too many attempts, try again later", true)

  /** One client's count in its current window, and when that window ends. */
  datatype Window = Window(hits: nat, resetAt: int)

  /** Whether `ip` has a window still open at `now`. */
  predicate InWindow(windows: map<string, Window>, ip: string, now: int) {
    ip in windows && now < windows[ip].resetAt
  }

  /** The store's increment: a new window of one hit when the old one has
      ended (or never existed), one more hit otherwise. */
  function Bump(windows: map<string, Window>, ip: string, now: int): (w: Window)
    ensures w.hits >= 1
    ensures InWindow(windows, ip, now) ==>
              w.resetAt == windows[ip].resetAt && w.hits == windows[ip].hits + 1
    ensures !InWindow(windows, ip, now) ==> w == Window(1, now + WindowMs)
  {
    if InWindow(windows, ip, now) then Window(windows[ip].hits + 1, windows[ip].resetAt)
    else Window(1, now + WindowMs)
  }

  /** Whether a finished response is given back its hit. */
  predicate Refunded(p: Policy, status: int) {
    p.skipSuccessful && status < 400
  }

  /** The store's decrement on finish, never below zero. */
  function Settle(p: Policy, windows: map<string, Window>, ip: string, status: int)
    : (r: map<string, Window>)
    ensures r.Keys == windows.Keys
    ensures forall k :: k in windows && k != ip ==> r[k] == windows[k]
    ensures ip in windows ==>
              r[ip].resetAt == windows[ip].resetAt
              && r[ip].hits == (if Refunded(p, status) && windows[ip].hits > 0
                                then windows[ip].hits - 1 else windows[ip].hits)
  {
    if ip in windows && Refunded(p, status) && windows[ip].hits > 0
    then windows[ip := Window(windows[ip].hits - 1, windows[ip].resetAt)]
    else windows
  }

  /** One request from `ip` at `now` whose handler would answer
      `handlerStatus`, when rate limiting is on: the new windows and whether
      the request was rejected. A rejected request finishes with 429. */
  function Attempt(p: Policy, windows: map<string, Window>, ip: string, now: int, handlerStatus: int)
    : (r: (map<string, Window>, bool))
    ensures r.1 <==> Bump(windows, ip, now).hits > p.max
    ensures r.0.Keys == windows.Keys + {ip}
    ensures forall k :: k in windows && k != ip ==> r.0[k] == windows[k]
    ensures r.0[ip].resetAt == Bump(windows, ip, now).resetAt
    // A rejected request keeps its hit; an admitted one gets it back when
    // the limiter skips successful requests and the handler succeeds.
    ensures r.0[ip].hits == (if !r.1 && Refunded(p, handlerStatus) then Bump(windows, ip, now).hits - 1
                             else Bump(windows, ip, now).hits)
  {
    var w := Bump(windows, ip, now);
    var rejected := w.hits > p.max;
    (Settle(p, windows[ip := w], ip, if rejected then 429 else handlerStatus), rejected)
  }

  /** `rutafem_rate_limit_hits_total`, one count per label. */
  class LabelledCounter {
    var counts: map<string, nat>

    constructor ()
      ensures counts == map[]
    {
      counts := map[];
    }

    function Count(name: string): nat
      reads this
    {
      if name in counts then counts[name] else 0
    }

    /** `counter.labels(label).inc()` */
    method Inc(name: string)
      modifies this
      ensures counts == old(counts)[name := old(Count(name)) + 1]
    {
      counts := counts[name := Count(name) + 1];
    }
  }

  datatype Verdict = Admitted | Rejected(response: Response<()>)

  /** One limiter instance with its per-IP windows. */
  class Limiter {
    const policy: Policy
    var windows: map<string, Window>

    constructor (policy: Policy)
      ensures this.policy == policy && windows == map[]
    {
      this.policy := policy;
      windows := map[];
    }

    /** The limiter on arrival: skipped entirely under the bypass; otherwise
        counts the hit and rejects when the count exceeds `max`, through the
        handler that bumps the counter under the limiter's label and answers
        429. */
    method Admit(ip: string, now: int, disableRateLimit: Option<string>, counter: LabelledCounter)
      returns (verdict: Verdict)
      modifies this, counter
      ensures SkipRateLimit(disableRateLimit) ==>
                verdict == Admitted && windows == old(windows) && counter.counts == old(counter.counts)
      ensures !SkipRateLimit(disableRateLimit) ==>
                windows == old(windows)[ip := Bump(old(windows), ip, now)]
                && (verdict.Rejected? <==> Bump(old(windows), ip, now).hits > policy.max)
      ensures verdict.Rejected? ==>
                verdict.response == Failure(429, policy.message)
                && counter.counts == old(counter.counts)[policy.counterLabel := old(counter.Count(policy.counterLabel)) + 1]
      ensures verdict.Admitted? ==> counter.counts == old(counter.counts)
    {
      if SkipRateLimit(disableRateLimit) {
        return Admitted;
      }
      var w := Bump(windows, ip, now);
      windows := windows[ip := w];
      if w.hits > policy.max {
        counter.Inc(policy.counterLabel);
        verdict := Rejected(Failure(429, policy.message));
      } else {
        verdict := Admitted;
      }
    }

    /** The `finish` listener registered for a counted request: gives the
        hit back when successful requests are not counted. */
    method Finish(ip: string, status: int)
      modifies this
      ensures windows == Settle(policy, old(windows), ip, status)
    {
      if ip in windows && Refunded(policy, status) && windows[ip].hits > 0 {
        windows := windows[ip := Window(windows[ip].hits - 1, windows[ip].resetAt)];
      }
    }
  }

  /** A whole request through one limiter: arrival, then the handler's
      answer (or the 429), then finish. */
  method Serve(limiter: Limiter, ip: string, now: int, disableRateLimit: Option<string>,
               counter: LabelledCounter, handlerStatus: int)
    returns (verdict: Verdict)
    modifies limiter, counter
    ensures SkipRateLimit(disableRateLimit) ==>
              verdict == Admitted && limiter.windows == old(limiter.windows)
    ensures !SkipRateLimit(disableRateLimit) ==>
              (limiter.windows, verdict.Rejected?)
              == Attempt(limiter.policy, old(limiter.windows), ip, now, handlerStatus)
  {
    verdict := limiter.Admit(ip, now, disableRateLimit, counter);
    if !SkipRateLimit(disableRateLimit) {
      limiter.Finish(ip, if verdict.Rejected? then 429 else handlerStatus);
    }
  }

  // ---------------------------------------------------------------------
  // What a series of requests from one client meets

  /** A client's request: when it arrives and what the handler would answer. */
  datatype Hit = Hit(now: int, handlerStatus: int)

  /** The rejections met by `hits` from `ip`, in order, and the windows after. */
  function Replay(p: Policy, windows: map<string, Window>, ip: string, hits: seq<Hit>)
    : (r: (map<string, Window>, seq<bool>))
    ensures |r.1| == |hits|
    decreases |hits|
  {
    if hits == [] then (windows, [])
    else
      var first := Attempt(p, windows, ip, hits[0].now, hits[0].handlerStatus);
      var rest := Replay(p, first.0, ip, hits[1..]);
      (rest.0, [first.1] + rest.1)
  }

  /** Whether a handler answer keeps its hit counted. */
  predicate Counted(p: Policy, handlerStatus: int) {
    !p.skipSuccessful || handlerStatus >= 400
  }

  /** Inside one window, requests whose answers are counted each add one
      hit, and a request is rejected exactly when it is past the limit. */
  lemma {:induction false} CountedHitsAccumulate(p: Policy, windows: map<string, Window>, ip: string,
                                                  hits: seq<Hit>)
    requires ip in windows
    requires forall i :: 0 <= i < |hits| ==>
               hits[i].now < windows[ip].resetAt && Counted(p, hits[i].handlerStatus)
    ensures var r := Replay(p, windows, ip, hits);
      && ip in r.0 && r.0[ip] == Window(windows[ip].hits + |hits|, windows[ip].resetAt)
      && forall i :: 0 <= i < |hits| ==> (r.1[i] <==> windows[ip].hits + i + 1 > p.max)
    decreases |hits|
  {
    if hits != [] {
      var first := Attempt(p, windows, ip, hits[0].now, hits[0].handlerStatus);
      var h := windows[ip].hits;
      assert first.0[ip] == Window(h + 1, windows[ip].resetAt);
      assert first.1 <==> h + 1 > p.max;
      CountedHitsAccumulate(p, first.0, ip, hits[1..]);
      var rest := Replay(p, first.0, ip, hits[1..]);
      forall i | 0 < i < |hits|
        ensures (Replay(p, windows, ip, hits).1[i] <==> h + i + 1 > p.max)
      {
        assert Replay(p, windows, ip, hits).1[i] == rest.1[i - 1];
      }
    }
  }

  /** From a client without an open window: counted requests that all
      arrive within the window the first one opens are admitted up to `max`
      and rejected from then on. */
  lemma CountedHitsFromFreshWindow(p: Policy, windows: map<string, Window>, ip: string, hits: seq<Hit>)
    requires |hits| > 0 && !InWindow(windows, ip, hits[0].now)
    requires forall i :: 0 <= i < |hits| ==>
               hits[i].now < hits[0].now + WindowMs && Counted(p, hits[i].handlerStatus)
    ensures forall i :: 0 <= i < |hits| ==> (Replay(p, windows, ip, hits).1[i] <==> i >= p.max)
  {
    var first := Attempt(p, windows, ip, hits[0].now, hits[0].handlerStatus);
    assert first.0[ip] == Window(1, hits[0].now + WindowMs);
    CountedHitsAccumulate(p, first.0, ip, hits[1..]);
    var rest := Replay(p, first.0, ip, hits[1..]);
    forall i | 0 < i < |hits|
      ensures (Replay(p, windows, ip, hits).1[i] <==> i >= p.max)
    {
      assert Replay(p, windows, ip, hits).1[i] == rest.1[i - 1];
    }
  }

  /** Under `skipSuccessfulRequests`, successful requests never use up the
      allowance: none is rejected and the count is what it was. */
  lemma {:induction false} SuccessesNotCounted(p: Policy, windows: map<string, Window>, ip: string,
                                               hits: seq<Hit>)
    requires p.skipSuccessful && ip in windows && windows[ip].hits < p.max
    requires forall i :: 0 <= i < |hits| ==>
               hits[i].now < windows[ip].resetAt && hits[i].handlerStatus < 400
    ensures var r := Replay(p, windows, ip, hits);
      && ip in r.0 && r.0[ip] == windows[ip]
      && forall i :: 0 <= i < |hits| ==> !r.1[i]
    decreases |hits|
  {
    if hits != [] {
      var first := Attempt(p, windows, ip, hits[0].now, hits[0].handlerStatus);
      assert !first.1;
      assert first.0[ip] == windows[ip];
      SuccessesNotCounted(p, first.0, ip, hits[1..]);
      var rest := Replay(p, first.0, ip, hits[1..]);
      forall i | 0 < i < |hits| ensures !Replay(p, windows, ip, hits).1[i] {
        assert Replay(p, windows, ip, hits).1[i] == rest.1[i - 1];
      }
    }
  }

  /** `authLimiter`: within 15 minutes, five failed attempts from one IP are
      served and every later one gets 429. */
  lemma AuthLimiterLocksOutAfterFiveFailures(windows: map<string, Window>, ip: string, hits: seq<Hit>)
    requires |hits| > 0 && !InWindow(windows, ip, hits[0].now)
    requires forall i :: 0 <= i < |hits| ==>
               hits[i].now < hits[0].now + WindowMs && hits[i].handlerStatus >= 400
    ensures forall i :: 0 <= i < |hits| ==> (Replay(AuthPolicy, windows, ip, hits).1[i] <==> i >= 5)
  {
    CountedHitsFromFreshWindow(AuthPolicy, windows, ip, hits);
  }

  /** `apiLimiter`: within 15 minutes, the first 100 requests from one IP are
      served, whatever they answer, and every later one gets 429. */
  lemma ApiLimiterAdmitsFirstHundred(windows: map<string, Window>, ip: string, hits: seq<Hit>)
    requires |hits| > 0 && !InWindow(windows, ip, hits[0].now)
    requires forall i :: 0 <= i < |hits| ==> hits[i].now < hits[0].now + WindowMs
    ensures forall i :: 0 <= i < |hits| ==> (Replay(ApiPolicy, windows, ip, hits).1[i] <==> i >= 100)
  {
    CountedHitsFromFreshWindow(ApiPolicy, windows, ip, hits);
  }

  /** A window that has ended is forgotten: the next request starts a new
      count of one. */
  lemma WindowExpires(p: Policy, windows: map<string, Window>, ip: string, now: int, handlerStatus: int)
    requires ip in windows && windows[ip].resetAt <= now
    requires Counted(p, handlerStatus) || p.max == 0
    ensures var r := Attempt(p, windows, ip, now, handlerStatus);
      r.0[ip] == Window(1, now + WindowMs) && (r.1 <==> p.max == 0)
  {
  }

  /** Another client's requests leave a client's window alone. */
  lemma OtherClientsUntouched(p: Policy, windows: map<string, Window>, ip: string, other: string,
                              now: int, handlerStatus: int)
    requires other != ip && other in windows
    ensures var r := Attempt(p, windows, ip, now, handlerStatus);
      other in r.0 && r.0[other] == windows[other]
  {
  }
}

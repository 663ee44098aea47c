/** The sliding-window script and its caller, on expiring Redis counters. */
module RateStore {
  import opened Wrappers
  import opened RateArithmetic
  import opened RateKeys

  /** A counter and the millisecond after which its key is gone. */
  datatype Counter = Counter(count: nat, expiresAt: Option<nat>)

  type Counters = map<string, Counter>

  datatype RateLimitConfig = RateLimitConfig(getLimit: int, postLimit: int, getWindowSeconds: nat,
    postWindowSeconds: nat)

  /** The limit and window of a method: POST has its own, every other method shares those of GET. */
  function Limit(cfg: RateLimitConfig, id: Identity): int {
    if id.method_ == "POST" then cfg.postLimit else cfg.getLimit
  }

  function WindowSeconds(cfg: RateLimitConfig, id: Identity): nat {
    if id.method_ == "POST" then cfg.postWindowSeconds else cfg.getWindowSeconds
  }

  predicate ValidConfig(cfg: RateLimitConfig) {
    cfg.getWindowSeconds > 0 && cfg.postWindowSeconds > 0
  }

  function Window(cfg: RateLimitConfig, id: Identity): (w: nat)
    requires ValidConfig(cfg)
    ensures w > 0
  {
    WindowSeconds(cfg, id) * 1000
  }

  predicate Live(c: Counters, key: string, now: nat) {
    key in c && (c[key].expiresAt.None? || now <= c[key].expiresAt.value)
  }

  /** GET, or 0. */
  function Read(c: Counters, key: string, now: nat): nat {
    if Live(c, key, now) then c[key].count else 0
  }

  /** INCR keeps the expiry of a live key and starts an absent or expired one at 1 without expiry. */
  function Incr(c: Counters, key: string, now: nat): Counters {
    if Live(c, key, now) then c[key := c[key].(count := c[key].count + 1)] else c[key := Counter(1, None)]
  }

  function Expire(c: Counters, key: string, seconds: nat, now: nat): Counters {
    if Live(c, key, now) then c[key := c[key].(expiresAt := Some(now + seconds * 1000))] else c
  }

  /** The estimate the script compares with the limit. `weigh` is multiplication by the weight it was given. */
  function Estimate(c: Counters, currentKey: string, previousKey: string, weigh: nat -> real, now: nat): int {
    Ceil(weigh(Read(c, previousKey, now))) + Read(c, currentKey, now)
  }

  datatype Verdict = Verdict(counters: Counters, allowed: bool)

  /** The whole script as one atomic step. */
  function Script(c: Counters, currentKey: string, previousKey: string, limit: int, weigh: nat -> real,
        expireSeconds: nat, now: nat): Verdict {
    if Estimate(c, currentKey, previousKey, weigh, now) >= limit then Verdict(c, false)
    else
      var c' := Incr(c, currentKey, now);
      Verdict(if Read(c', currentKey, now) == 1 then Expire(c', currentKey, expireSeconds, now) else c', true)
  }

  /** The number of the bucket that holds time `t`. */
  function BucketNumber(t: nat, w: nat): nat
    requires w > 0
  {
    t / w
  }

  /** `check_sliding_window_rate_limit` for a request whose clock was read at `sampled` and whose
      script runs at `now`; `f` is the floating-point product. */
  function Check(c: Counters, cfg: RateLimitConfig, f: Product, id: Identity, sampled: nat, now: nat): Verdict
    requires ValidConfig(cfg) && sampled >= Window(cfg, id)
  {
    var w := Window(cfg, id);
    var bucket := BucketNumber(sampled, w);
    PastFirstBucket(sampled, w);
    Script(c, Key(id, bucket), Key(id, bucket - 1), Limit(cfg, id), (p: nat) => f(p, sampled % w, w),
      WindowSeconds(cfg, id) * 2, now)
  }

  lemma PastFirstBucket(t: nat, w: nat)
    requires w > 0 && t >= w
    ensures BucketNumber(t, w) >= 1
  {
    DivMod(t, w);
    assert w * (t / w) == (t / w) * w;
    MulCancel(0, t / w, w);
  }

  datatype Header = Missing | Unreadable | Readable(value: string)

  /** The identity a request is counted under; unreadable header bytes all count as one user. */
  function IdentityOf(method_: string, header: Header): Option<Identity> {
    match header
    case Missing => None
    case Unreadable => Some(Identity(method_, "unknown"))
    case Readable(user) => Some(Identity(method_, user))
  }

  datatype Outcome = MissingHeader | Unavailable | TooManyRequests | Forwarded

  /** A request as the middleware meets it: whether a connection to Redis is there and whether the script runs,
      the server's clock reading and the time the script runs at. */
  datatype Request = Request(method_: string, header: Header, connected: bool, scriptRuns: bool, sampled: nat,
    executed: nat)

  datatype Handled = Handled(counters: Counters, outcome: Outcome)

  /** A clock past the first window, where the previous bucket number does not underflow. */
  predicate InRange(cfg: RateLimitConfig, q: Request)
    requires ValidConfig(cfg)
  {
    q.header.Missing? || q.sampled >= Window(cfg, Identity(q.method_, ""))
  }

  /** The middleware: only an admitted request goes on; a failing connection or script admits nobody. */
  function Handle(c: Counters, cfg: RateLimitConfig, f: Product, q: Request): Handled
    requires ValidConfig(cfg) && InRange(cfg, q)
  {
    match IdentityOf(q.method_, q.header)
    case None => Handled(c, MissingHeader)
    case Some(id) =>
      if !q.connected then Handled(c, Unavailable)
      else if !q.scriptRuns then Handled(c, TooManyRequests)
      else
        var v := Check(c, cfg, f, id, q.sampled, q.executed);
        Handled(v.counters, if v.allowed then Forwarded else TooManyRequests)
  }

  class CounterStore {
    var counters: Counters

    constructor ()
      ensures counters == map[]
    {
      counters := map[];
    }

    method Get(key: string, now: nat) returns (count: nat)
      ensures count == Read(counters, key, now)
    {
      count := 0;
      if key in counters && (counters[key].expiresAt.None? || now <= counters[key].expiresAt.value) {
        count := counters[key].count;
      }
    }

    method IncrKey(key: string, now: nat) returns (count: nat)
      modifies this
      ensures counters == Incr(old(counters), key, now)
      ensures count == Read(counters, key, now)
    {
      count := Get(key, now);
      if Live(counters, key, now) {
        count := count + 1;
        counters := counters[key := counters[key].(count := count)];
      } else {
        count := 1;
        counters := counters[key := Counter(1, None)];
      }
    }

    method ExpireKey(key: string, seconds: nat, now: nat)
      modifies this
      ensures counters == Expire(old(counters), key, seconds, now)
    {
      if Live(counters, key, now) {
        counters := counters[key := counters[key].(expiresAt := Some(now + seconds * 1000))];
      }
    }

    /** `sliding_window.lua`, statement by statement. */
    method SlidingWindow(currentKey: string, previousKey: string, limit: int, weigh: nat -> real, expireTime: nat,
          now: nat)
      returns (allowed: bool)
      modifies this
      ensures Verdict(counters, allowed) ==
        Script(old(counters), currentKey, previousKey, limit, weigh, expireTime, now)
    {
      var currentCount := Get(currentKey, now);
      var previousCount := Get(previousKey, now);
      var estimatedRate := Ceil(weigh(previousCount)) + currentCount;
      if estimatedRate >= limit {
        return false;
      }
      var newCount := IncrKey(currentKey, now);
      if newCount == 1 {
        ExpireKey(currentKey, expireTime, now);
      }
      return true;
    }

    method CheckSlidingWindow(cfg: RateLimitConfig, f: Product, id: Identity, sampled: nat, now: nat)
      returns (allowed: bool)
      requires ValidConfig(cfg) && sampled >= Window(cfg, id)
      modifies this
      ensures Verdict(counters, allowed) == Check(old(counters), cfg, f, id, sampled, now)
    {
      var w := Window(cfg, id);
      PastFirstBucket(sampled, w);
      var currentBucket := BucketNumber(sampled, w);
      var previousBucket := currentBucket - 1;
      var intoBucket := sampled % w;
      var weigh := (p: nat) => f(p, intoBucket, w);
      allowed := SlidingWindow(Key(id, currentBucket), Key(id, previousBucket), Limit(cfg, id), weigh,
        WindowSeconds(cfg, id) * 2, now);
    }

    /** `rate_limit_middleware`, check by check. */
    method RateLimitMiddleware(cfg: RateLimitConfig, f: Product, q: Request) returns (outcome: Outcome)
      requires ValidConfig(cfg) && InRange(cfg, q)
      modifies this
      ensures Handled(counters, outcome) == Handle(old(counters), cfg, f, q)
    {
      var identity := IdentityOf(q.method_, q.header);
      if identity.None? {
        return MissingHeader;
      }
      if !q.connected {
        return Unavailable;
      }
      var allowed := false;
      if q.scriptRuns {
        allowed := CheckSlidingWindow(cfg, f, identity.value, q.sampled, q.executed);
      }
      return if allowed then Forwarded else TooManyRequests;
    }
  }
}

/** The limiter seen from its requests: who shares a count with whom, and how many are forwarded. */
module RateRequests {
  import opened Wrappers
  import opened RateArithmetic
  import opened RateFloat
  import opened RateKeys
  import opened RateStore
  import opened RateLog
  import opened RateRuns
  import opened RateTheorems
  import opened RateLateness

  // ------------------------------------------------------------------- one request

  /** Only a request with a header, a connection and a running script can be forwarded; any other outcome leaves
      the counters alone. */
  lemma OnlyAdmittedPass(c: Counters, cfg: RateLimitConfig, f: Product, q: Request)
    requires ValidConfig(cfg) && InRange(cfg, q)
    ensures
      var h := Handle(c, cfg, f, q);
      && (h.outcome == Forwarded ==> q.header != Missing && q.connected && q.scriptRuns)
      && (h.outcome != Forwarded ==> h.counters == c)
      && (h.outcome == MissingHeader <==> q.header == Missing)
      && (h.outcome == Unavailable <==> q.header != Missing && !q.connected)
      && (q.header != Missing && q.connected && !q.scriptRuns ==> h.outcome == TooManyRequests)
  {
    hide Key, Window, BucketNumber, Limit, Estimate, Incr, Expire, Live;
  }

  /** A header whose bytes are not readable text counts as that of a user called unknown. */
  lemma UnreadableIsUnknown(c: Counters, cfg: RateLimitConfig, f: Product, q: Request)
    requires ValidConfig(cfg) && InRange(cfg, q) && q.header == Unreadable
    ensures Handle(c, cfg, f, q) == Handle(c, cfg, f, q.(header := Readable("unknown")))
  {
    hide Check;
  }

  /** A script of another identity does not change what a key of this one reads. */
  lemma OtherReads(c: Counters, cfg: RateLimitConfig, f: Product, id: Identity, sampled: nat, now: nat, key: string,
        later: nat)
    requires ValidConfig(cfg) && sampled >= Window(cfg, id) && key != Key(id, BucketNumber(sampled, Window(cfg, id)))
    ensures Read(Check(c, cfg, f, id, sampled, now).counters, key, later) == Read(c, key, later)
  {
    hide Key, Window, BucketNumber, Limit;
  }

  lemma SameReadsSameAnswer(c: Counters, c': Counters, cfg: RateLimitConfig, f: Product, id: Identity, sampled: nat,
        now: nat)
    requires ValidConfig(cfg) && sampled >= Window(cfg, id) && BucketNumber(sampled, Window(cfg, id)) >= 1
    requires
      var b := BucketNumber(sampled, Window(cfg, id));
      && Read(c, Key(id, b), now) == Read(c', Key(id, b), now)
      && Read(c, Key(id, b - 1), now) == Read(c', Key(id, b - 1), now)
    ensures Check(c, cfg, f, id, sampled, now).allowed == Check(c', cfg, f, id, sampled, now).allowed
  {
    hide Key, Window, BucketNumber, Limit, Read, Incr, Expire;
  }

  lemma OtherIdentity(c: Counters, cfg: RateLimitConfig, f: Product, a: Identity, aSampled: nat, aNow: nat,
        b: Identity, sampled: nat, now: nat)
    requires ValidConfig(cfg) && IsMethod(a.method_) && IsMethod(b.method_) && a != b
    requires aSampled >= Window(cfg, a) && sampled >= Window(cfg, b)
    ensures
      var c' := Check(c, cfg, f, a, aSampled, aNow).counters;
      Check(c', cfg, f, b, sampled, now).allowed == Check(c, cfg, f, b, sampled, now).allowed
  {
    hide Key, Window, BucketNumber, Limit, Read, Check;
    var c' := Check(c, cfg, f, a, aSampled, aNow).counters;
    var i, n := BucketNumber(aSampled, Window(cfg, a)), BucketNumber(sampled, Window(cfg, b));
    PastFirstBucket(sampled, Window(cfg, b));
    KeysDiffer(a, b, i, n);
    KeysDiffer(a, b, i, n - 1);
    OtherReads(c, cfg, f, a, aSampled, aNow, Key(b, n), now);
    OtherReads(c, cfg, f, a, aSampled, aNow, Key(b, n - 1), now);
    SameReadsSameAnswer(c', c, cfg, f, b, sampled, now);
  }

  lemma KeysDiffer(a: Identity, b: Identity, i: nat, j: nat)
    requires IsMethod(a.method_) && IsMethod(b.method_) && a != b
    ensures Key(a, i) != Key(b, j)
  {
    if Key(a, i) == Key(b, j) {
      KeysAreInjective(a, b, i, j);
    }
  }

  /** Requests of different methods or users do not touch each other: whatever happens to the first, the second
      gets the answer it would have got before, on any counters. */
  lemma RequestsAreIsolated(c: Counters, cfg: RateLimitConfig, f: Product, q: Request, u: string, q': Request,
        v: string)
    requires ValidConfig(cfg) && InRange(cfg, q) && InRange(cfg, q')
    requires ':' !in q.method_ && ':' !in q'.method_ && q.header == Readable(u) && q'.header == Readable(v)
    requires q.method_ != q'.method_ || u != v
    ensures Handle(Handle(c, cfg, f, q).counters, cfg, f, q').outcome == Handle(c, cfg, f, q').outcome
  {
    hide Check;
    if q.connected && q.scriptRuns {
      OtherIdentity(c, cfg, f, Identity(q.method_, u), q.sampled, q.executed, Identity(q'.method_, v), q'.sampled,
        q'.executed);
    }
  }

  /** What a forwarded request leaves behind, as deployed: one more in the counter of its bucket if that is live,
      else a counter at one that is gone two windows (10 s for POST, 20 s for the rest) after the script ran. */
  lemma ForwardedCounts(c: Counters, f: Product, q: Request, u: string)
    requires InRange(CONFIGURED, q) && q.header == Readable(u) && Handle(c, CONFIGURED, f, q).outcome == Forwarded
    requires forall k :: k in c ==> c[k].count >= 1
    ensures
      var key := Key(Identity(q.method_, u), q.sampled / if q.method_ == "POST" then 5000 else 10000);
      Handle(c, CONFIGURED, f, q).counters ==
      if key in c && (c[key].expiresAt.None? || q.executed <= c[key].expiresAt.value) then
        c[key := Counter(c[key].count + 1, c[key].expiresAt)]
      else
        c[key := Counter(1, Some(q.executed + if q.method_ == "POST" then 10000 else 20000))]
  {
    hide Key;
  }

  // ----------------------------------------------------------------- runs of requests

  datatype Answers = Answers(counters: Counters, outcomes: seq<Outcome>)

  predicate AllInRange(cfg: RateLimitConfig, qs: seq<Request>)
    requires ValidConfig(cfg)
  {
    forall i :: 0 <= i < |qs| ==> InRange(cfg, qs[i])
  }

  /** The middleware on one request after the other, starting from an empty store. */
  function ServeRun(cfg: RateLimitConfig, f: Product, qs: seq<Request>): (r: Answers)
    requires ValidConfig(cfg) && AllInRange(cfg, qs)
    ensures |r.outcomes| == |qs|
  {
    if qs == [] then Answers(map[], [])
    else
      var before := ServeRun(cfg, f, qs[..|qs| - 1]);
      var h := Handle(before.counters, cfg, f, qs[|qs| - 1]);
      Answers(h.counters, before.outcomes + [h.outcome])
  }

  /** A request of user `u` with method `m`. */
  predicate IsFrom(q: Request, m: string, u: string) {
    q.method_ == m && (q.header == Readable(u) || (q.header == Unreadable && u == "unknown"))
  }

  /** Forwarded requests of `u` with method `m` whose clock was read in [lo, hi). */
  function ForwardedIn(qs: seq<Request>, outcomes: seq<Outcome>, m: string, u: string, lo: nat, hi: nat): nat
    requires |outcomes| == |qs|
  {
    if qs == [] then 0
    else
      var q, o := qs[|qs| - 1], outcomes[|qs| - 1];
      ForwardedIn(qs[..|qs| - 1], outcomes[..|qs| - 1], m, u, lo, hi)
      + if o == Forwarded && IsFrom(q, m, u) && lo <= q.sampled < hi then 1 else 0
  }

  predicate ReachesScript(q: Request) {
    q.header != Missing && q.connected && q.scriptRuns
  }

  /** The script call of a request that gets that far. */
  function CallOf(q: Request): Call
    requires q.header != Missing
  {
    Call(Identity(q.method_, if q.header.Readable? then q.header.value else "unknown"), q.sampled, q.executed)
  }

  function CallsOf(qs: seq<Request>): seq<Call> {
    if qs == [] then []
    else
      var q := qs[|qs| - 1];
      CallsOf(qs[..|qs| - 1]) + if ReachesScript(q) then [CallOf(q)] else []
  }

  /** Methods are tokens, and scripts that run do so before their bucket ends. */
  predicate PromptRequest(cfg: RateLimitConfig, q: Request)
    requires ValidConfig(cfg)
  {
    ':' !in q.method_ && InRange(cfg, q) && (ReachesScript(q) ==> Prompt(cfg, CallOf(q)))
  }

  predicate AllPromptRequests(cfg: RateLimitConfig, qs: seq<Request>)
    requires ValidConfig(cfg)
  {
    forall i :: 0 <= i < |qs| ==> PromptRequest(cfg, qs[i])
  }

  lemma CallInRange(cfg: RateLimitConfig, q: Request)
    requires ValidConfig(cfg) && PromptRequest(cfg, q) && ReachesScript(q)
    ensures IsMethod(CallOf(q).id.method_) && CallOf(q).sampled >= Window(cfg, CallOf(q).id) && Prompt(cfg, CallOf(q))
  {}

  lemma {:induction false} CallsArePrompt(cfg: RateLimitConfig, qs: seq<Request>)
    requires ValidConfig(cfg) && AllPromptRequests(cfg, qs)
    ensures AllPrompt(cfg, CallsOf(qs)) && AllInRange(cfg, qs)
  {
    hide Prompt, Window, CallOf, PromptRequest;
    if qs != [] {
      CallsArePrompt(cfg, qs[..|qs| - 1]);
      assert PromptRequest(cfg, qs[|qs| - 1]);
      RangeOf(cfg, qs[|qs| - 1]);
      if ReachesScript(qs[|qs| - 1]) {
        CallInRange(cfg, qs[|qs| - 1]);
      }
    }
  }

  lemma RangeOf(cfg: RateLimitConfig, q: Request)
    requires ValidConfig(cfg) && PromptRequest(cfg, q)
    ensures InRange(cfg, q)
  {}

  lemma HandleIs(c: Counters, cfg: RateLimitConfig, f: Product, q: Request)
    requires ValidConfig(cfg) && PromptRequest(cfg, q)
    ensures
      var h := Handle(c, cfg, f, q);
      if ReachesScript(q) then
        CallOf(q).sampled >= Window(cfg, CallOf(q).id) &&
        var v := Check(c, cfg, f, CallOf(q).id, q.sampled, q.executed);
        h.counters == v.counters && (h.outcome == Forwarded <==> v.allowed)
      else h.counters == c && h.outcome != Forwarded
  {
    hide Check;
  }

  lemma IsFromCall(q: Request, m: string, u: string)
    requires q.header != Missing
    ensures IsFrom(q, m, u) <==> CallOf(q).id == Identity(m, u)
    ensures CallOf(q).sampled == q.sampled && CallOf(q).executed == q.executed
  {}

  /** The middleware's run is the limiter's run on the calls that get to the script, and what it forwards is what
      the limiter's log counts. */
  lemma {:induction false} ServeIsStoreRun(cfg: RateLimitConfig, f: Product, qs: seq<Request>, m: string, u: string,
        lo: nat, hi: nat)
    requires ValidConfig(cfg) && AllPromptRequests(cfg, qs)
    ensures AllInRange(cfg, qs) && WellTimed(cfg, CallsOf(qs))
    ensures
      var a, r := ServeRun(cfg, f, qs), StoreRun(cfg, f, CallsOf(qs));
      && a.counters == r.counters
      && ForwardedIn(qs, a.outcomes, m, u, lo, hi) == CountIn(r.tally.log, Identity(m, u), lo, hi)
  {
    hide Check, Prompt, Window, CallOf, PromptRequest, Handle, CountIn, IsFrom, InRange;
    CallsArePrompt(cfg, qs);
    if qs == [] {
      EmptyStoreRun(cfg, f);
      NothingCounted(Identity(m, u), lo, hi);
    } else {
      var before, q := qs[..|qs| - 1], qs[|qs| - 1];
      assert PromptRequest(cfg, q);
      ServeIsStoreRun(cfg, f, before, m, u, lo, hi);
      CallsArePrompt(cfg, before);
      var a, r := ServeRun(cfg, f, before), StoreRun(cfg, f, CallsOf(before));
      HandleIs(a.counters, cfg, f, q);
      assert (a.outcomes + [Handle(a.counters, cfg, f, q).outcome])[..|before|] == a.outcomes;
      if ReachesScript(q) {
        CallInRange(cfg, q);
        IsFromCall(q, m, u);
        RunAppendOne(cfg, f, CallsOf(before), CallOf(q));
        CountAppend(r.tally.log, Admission(CallOf(q).id, CallOf(q).sampled), Identity(m, u), lo, hi);
      } else {
        assert CallsOf(before) + [] == CallsOf(before);
      }
    }
  }

  lemma NothingCounted(id: Identity, lo: nat, hi: nat)
    ensures CountIn([], id, lo, hi) == 0
  {}

  // ------------------------------------------------------------------------- expiry

  /** Request `q` opened the counter under `key`: it wrote that key, and the expiry is two windows after its script. */
  predicate Opened(cfg: RateLimitConfig, q: Request, key: string, counter: Counter)
    requires ValidConfig(cfg)
  {
    && q.header != Missing
    && var id := CallOf(q).id;
       && key == Key(id, BucketNumber(q.sampled, Window(cfg, id)))
       && counter.expiresAt == Some(q.executed + 2 * Window(cfg, id))
  }

  /** Every counter is positive and was opened by some forwarded request. */
  ghost predicate AllOpened(cfg: RateLimitConfig, qs: seq<Request>, outcomes: seq<Outcome>, c: Counters)
    requires ValidConfig(cfg) && |outcomes| == |qs|
  {
    forall key :: key in c ==>
      c[key].count >= 1 && exists i :: 0 <= i < |qs| && outcomes[i] == Forwarded && Opened(cfg, qs[i], key, c[key])
  }

  /** One request changes at most the counter it is counted in, and opens it or keeps its expiry. */
  lemma HandleCounters(c: Counters, cfg: RateLimitConfig, f: Product, q: Request)
    requires ValidConfig(cfg) && InRange(cfg, q) && forall k :: k in c ==> c[k].count >= 1
    ensures
      var h := Handle(c, cfg, f, q);
      forall k :: k in h.counters ==>
        && h.counters[k].count >= 1
        && ((k in c && h.counters[k].expiresAt == c[k].expiresAt)
            || (h.outcome == Forwarded && Opened(cfg, q, k, h.counters[k])))
  {
    hide Key;
  }

  /** No counter lives for ever: after any run, each expires two windows after the script of the forwarded request
      that opened it, however many requests it went on to count. */
  lemma {:induction false} CountersExpire(cfg: RateLimitConfig, f: Product, qs: seq<Request>)
    requires ValidConfig(cfg) && AllInRange(cfg, qs)
    ensures AllOpened(cfg, qs, ServeRun(cfg, f, qs).outcomes, ServeRun(cfg, f, qs).counters)
  {
    hide Handle, InRange, Opened;
    if qs != [] {
      var before, q := qs[..|qs| - 1], qs[|qs| - 1];
      CountersExpire(cfg, f, before);
      var a, r := ServeRun(cfg, f, before), ServeRun(cfg, f, qs);
      HandleCounters(a.counters, cfg, f, q);
      forall k | k in r.counters
        ensures exists i :: 0 <= i < |qs| && r.outcomes[i] == Forwarded && Opened(cfg, qs[i], k, r.counters[k])
      {
        if k in a.counters && r.counters[k].expiresAt == a.counters[k].expiresAt {
          var i :| 0 <= i < |before| && a.outcomes[i] == Forwarded && Opened(cfg, before[i], k, a.counters[k]);
          OpenedByExpiry(cfg, qs[i], k, a.counters[k], r.counters[k]);
          assert r.outcomes[i] == Forwarded;
        } else {
          assert qs[|before|] == q && r.outcomes[|before|] == Forwarded;
        }
      }
    }
  }

  lemma OpenedByExpiry(cfg: RateLimitConfig, q: Request, key: string, a: Counter, b: Counter)
    requires ValidConfig(cfg) && Opened(cfg, q, key, a) && a.expiresAt == b.expiresAt
    ensures Opened(cfg, q, key, b)
  {}

  // ------------------------------------------------------------------------- bounds

  /** The requests of one user and method run bucket by bucket. */
  predicate RequestsInOrder(qs: seq<Request>, m: string, u: string, w: nat)
    requires w > 0
  {
    forall i, j :: 0 <= i < j < |qs| && IsFrom(qs[i], m, u) && IsFrom(qs[j], m, u) ==>
      qs[i].sampled / w <= qs[j].sampled / w
  }

  /** No call of `id` comes from a bucket later than number `b`. */
  predicate CallsWithin(calls: seq<Call>, id: Identity, w: nat, b: nat)
    requires w > 0
  {
    forall i :: 0 <= i < |calls| && calls[i].id == id ==> BucketNumber(calls[i].sampled, w) <= b
  }

  lemma {:induction false} RequestsWithin(qs: seq<Request>, m: string, u: string, w: nat, b: nat)
    requires w > 0 && forall i :: 0 <= i < |qs| && IsFrom(qs[i], m, u) ==> qs[i].sampled / w <= b
    ensures CallsWithin(CallsOf(qs), Identity(m, u), w, b)
  {
    hide CallOf, IsFrom;
    if qs != [] {
      var before, q := qs[..|qs| - 1], qs[|qs| - 1];
      assert forall i :: 0 <= i < |before| ==> before[i] == qs[i];
      RequestsWithin(before, m, u, w, b);
      if q.header != Missing {
        IsFromCall(q, m, u);
      }
    }
  }

  lemma OrderAppend(cfg: RateLimitConfig, calls: seq<Call>, c: Call, id: Identity)
    requires ValidConfig(cfg) && InBucketOrder(cfg, calls, id)
    requires c.id == id ==> CallsWithin(calls, id, Window(cfg, id), BucketNumber(c.sampled, Window(cfg, id)))
    ensures InBucketOrder(cfg, calls + [c], id)
  {
    hide Window, BucketNumber;
  }

  lemma {:induction false} RequestOrderIsCallOrder(cfg: RateLimitConfig, qs: seq<Request>, m: string, u: string)
    requires ValidConfig(cfg) && RequestsInOrder(qs, m, u, Window(cfg, Identity(m, u)))
    ensures InBucketOrder(cfg, CallsOf(qs), Identity(m, u))
  {
    hide CallOf, IsFrom, Window, InBucketOrder, CallsWithin;
    var id := Identity(m, u);
    if qs == [] {
      NoOrder(cfg, id);
    } else {
      var before, q := qs[..|qs| - 1], qs[|qs| - 1];
      assert forall i :: 0 <= i < |before| ==> before[i] == qs[i];
      RequestOrderIsCallOrder(cfg, before, m, u);
      if ReachesScript(q) {
        IsFromCall(q, m, u);
        if IsFrom(q, m, u) {
          RequestsWithin(before, m, u, Window(cfg, id), q.sampled / Window(cfg, id));
        }
        OrderAppend(cfg, CallsOf(before), CallOf(q), id);
      } else {
        assert CallsOf(before) + [] == CallsOf(before);
      }
    }
  }

  lemma NoOrder(cfg: RateLimitConfig, id: Identity)
    requires ValidConfig(cfg)
    ensures InBucketOrder(cfg, [], id)
  {}

  /** How many requests of one user and method are forwarded in any closed window. */
  lemma RequestWindowBound(cfg: RateLimitConfig, f: Product, qs: seq<Request>, m: string, u: string, a: nat)
    requires ValidConfig(cfg) && Faithful(cfg, f) && AllPromptRequests(cfg, qs) && Limit(cfg, Identity(m, u)) >= 1
    requires RequestsInOrder(qs, m, u, Window(cfg, Identity(m, u)))
    ensures AllInRange(cfg, qs)
    ensures
      var l, w := Limit(cfg, Identity(m, u)), Window(cfg, Identity(m, u));
      ForwardedIn(qs, ServeRun(cfg, f, qs).outcomes, m, u, a, a + w + 1) <= 2 * l - CeilDiv(l, w)
  {
    hide Faithful, ServeRun, StoreRun, CountIn, Window, Limit, CeilDiv, LongRun, Shares, InBucketOrder, Prompt;
    hide RequestsInOrder, AllPromptRequests;
    ServeIsStoreRun(cfg, f, qs, m, u, a, a + Window(cfg, Identity(m, u)) + 1);
    CallsArePrompt(cfg, qs);
    RequestOrderIsCallOrder(cfg, qs, m, u);
    RunBounds(cfg, f, CallsOf(qs), Identity(m, u), a, 0, 1);
  }

  /** As deployed, in double precision: of one user's submissions, and in five seconds, one is forwarded; of one
      user's requests of any other method, in ten seconds, 19 at most. */
  lemma ConfiguredRequestBounds(rnd: real -> real, qs: seq<Request>, m: string, u: string, a: nat)
    requires Rounding(rnd) && AllPromptRequests(CONFIGURED, qs)
    requires RequestsInOrder(qs, m, u, if m == "POST" then 5000 else 10000)
    ensures AllInRange(CONFIGURED, qs)
    ensures
      var outcomes := ServeRun(CONFIGURED, FloatProduct(rnd), qs).outcomes;
      && (m == "POST" ==> ForwardedIn(qs, outcomes, m, u, a, a + 5000 + 1) <= 1)
      && (m != "POST" ==> ForwardedIn(qs, outcomes, m, u, a, a + 10000 + 1) <= 19)
  {
    hide ServeRun, Faithful, Rounding, FloatProduct, FitsDouble, RequestsInOrder, AllPromptRequests, ForwardedIn;
    ConfiguredFitsDouble();
    DoubleIsFaithful(CONFIGURED, rnd);
    RequestWindowBound(CONFIGURED, FloatProduct(rnd), qs, m, u, a);
  }

  // ------------------------------------------------------------------ fresh buckets

  /** In a bucket whose predecessor saw none of the user's requests forwarded, the next one is forwarded if and
      only if fewer than the limit were in this bucket, in whatever order scripts ran and whatever others did. */
  lemma FreshBucketIff(cfg: RateLimitConfig, f: Product, qs: seq<Request>, q: Request, m: string, u: string)
    requires ValidConfig(cfg) && Faithful(cfg, f) && AllPromptRequests(cfg, qs) && PromptRequest(cfg, q)
    requires ReachesScript(q) && IsFrom(q, m, u) && AllInRange(cfg, qs)
    requires
      var s, w := BucketStart(q.sampled, Window(cfg, Identity(m, u))), Window(cfg, Identity(m, u));
      s >= w && ForwardedIn(qs, ServeRun(cfg, f, qs).outcomes, m, u, s - w, s) == 0
    ensures
      var s, w := BucketStart(q.sampled, Window(cfg, Identity(m, u))), Window(cfg, Identity(m, u));
      Handle(ServeRun(cfg, f, qs).counters, cfg, f, q).outcome == Forwarded <==>
      ForwardedIn(qs, ServeRun(cfg, f, qs).outcomes, m, u, s, s + w) < Limit(cfg, Identity(m, u))
  {
    hide Faithful, ServeRun, StoreRun, LogRun, CountIn, Window, Limit, Check, Handle, Prompt, IsFrom, CallOf;
    hide PromptRequest, BucketStart, ForwardedIn, Tracks;
    var id := Identity(m, u);
    var w, s := Window(cfg, id), BucketStart(q.sampled, Window(cfg, id));
    IsFromCall(q, m, u);
    CallInRange(cfg, q);
    ServeIsStoreRun(cfg, f, qs, m, u, s - w, s);
    ServeIsStoreRun(cfg, f, qs, m, u, s, s + w);
    CallsArePrompt(cfg, qs);
    CountersRefineLog(cfg, f, CallsOf(qs));
    PromptTracks(cfg, f, CallsOf(qs));
    var r := StoreRun(cfg, f, CallsOf(qs));
    HandleIs(r.counters, cfg, f, q);
    SameDecision(cfg, f, r.counters, r.tally.log, CallOf(q));
    DivMod(q.sampled, w);
    ZeroWeighsNothing(cfg, f, id, q.sampled % w);
  }

  lemma ZeroWeighsNothing(cfg: RateLimitConfig, f: Product, id: Identity, r: nat)
    requires ValidConfig(cfg) && Faithful(cfg, f) && r < Window(cfg, id)
    ensures Ceil(f(0, r, Window(cfg, id))) == 0
  {
    assert FaithfulAt(f, 0, r, Window(cfg, id));
  }

  /** As deployed, in double precision: after a bucket (five seconds for POST, ten for the rest) in which none of
      the user's requests were forwarded, the next is forwarded if and only if none was in this bucket for POST,
      and fewer than ten for the rest. */
  lemma ConfiguredFreshBucket(rnd: real -> real, qs: seq<Request>, q: Request, m: string, u: string, s: nat)
    requires Rounding(rnd) && AllPromptRequests(CONFIGURED, qs) && PromptRequest(CONFIGURED, q)
    requires ReachesScript(q) && IsFrom(q, m, u) && AllInRange(CONFIGURED, qs)
    requires s == q.sampled - q.sampled % (if m == "POST" then 5000 else 10000)
    requires s >= (if m == "POST" then 5000 else 10000)
    requires
      var outcomes := ServeRun(CONFIGURED, FloatProduct(rnd), qs).outcomes;
      ForwardedIn(qs, outcomes, m, u, s - (if m == "POST" then 5000 else 10000), s) == 0
    ensures
      var a := ServeRun(CONFIGURED, FloatProduct(rnd), qs);
      Handle(a.counters, CONFIGURED, FloatProduct(rnd), q).outcome == Forwarded <==>
      if m == "POST" then ForwardedIn(qs, a.outcomes, m, u, s, s + 5000) == 0
      else ForwardedIn(qs, a.outcomes, m, u, s, s + 10000) < 10
  {
    hide ServeRun, Faithful, Rounding, FloatProduct, FitsDouble, AllPromptRequests, ForwardedIn, PromptRequest, Handle;
    hide IsFrom;
    ConfiguredFitsDouble();
    DoubleIsFaithful(CONFIGURED, rnd);
    FreshBucketIff(CONFIGURED, FloatProduct(rnd), qs, q, m, u);
  }

  /** The same request over and over. */
  function Copies(q: Request, n: nat): (s: seq<Request>)
    ensures |s| == n && forall i :: 0 <= i < n ==> s[i] == q
  {
    if n == 0 then [] else Copies(q, n - 1) + [q]
  }

  lemma CopiesInRange(q: Request, n: nat)
    requires PromptRequest(CONFIGURED, q)
    ensures AllPromptRequests(CONFIGURED, Copies(q, n)) && AllInRange(CONFIGURED, Copies(q, n))
  {
    hide PromptRequest, InRange, Copies;
    RangeOf(CONFIGURED, q);
  }

  lemma ServeAppend(cfg: RateLimitConfig, f: Product, qs: seq<Request>, q: Request)
    requires ValidConfig(cfg) && AllInRange(cfg, qs) && InRange(cfg, q)
    ensures AllInRange(cfg, qs + [q])
    ensures
      var a := ServeRun(cfg, f, qs);
      var h := Handle(a.counters, cfg, f, q);
      ServeRun(cfg, f, qs + [q]) == Answers(h.counters, a.outcomes + [h.outcome])
  {
    hide Handle, InRange;
    assert (qs + [q])[..|qs|] == qs;
  }

  lemma ForwardedAppend(qs: seq<Request>, outcomes: seq<Outcome>, q: Request, o: Outcome, lo: nat, hi: nat)
    requires |qs| == |outcomes| && q.header.Readable?
    ensures ForwardedIn(qs + [q], outcomes + [o], q.method_, q.header.value, lo, hi)
      == ForwardedIn(qs, outcomes, q.method_, q.header.value, lo, hi)
        + if o == Forwarded && lo <= q.sampled < hi then 1 else 0
  {
    assert (qs + [q])[..|qs|] == qs && (outcomes + [o])[..|qs|] == outcomes;
  }

  /** Ten reads in one bucket of a new user are forwarded, the eleventh is not. */
  lemma TenThenRefused(rnd: real -> real, q: Request, u: string)
    requires Rounding(rnd) && PromptRequest(CONFIGURED, q) && ReachesScript(q) && q.header == Readable(u)
    requires q.method_ != "POST"
    ensures AllInRange(CONFIGURED, Copies(q, 11))
    ensures
      var outcomes := ServeRun(CONFIGURED, FloatProduct(rnd), Copies(q, 11)).outcomes;
      (forall i :: 0 <= i < 10 ==> outcomes[i] == Forwarded) && outcomes[10] == TooManyRequests
  {
    hide ServeRun, Rounding, FloatProduct, PromptRequest, Copies, ForwardedIn;
    CopiesServed(rnd, q, u, 11);
  }

  lemma {:induction false} CopiesServed(rnd: real -> real, q: Request, u: string, n: nat)
    requires Rounding(rnd) && PromptRequest(CONFIGURED, q) && ReachesScript(q) && q.header == Readable(u)
    requires q.method_ != "POST" && n <= 11
    ensures AllPromptRequests(CONFIGURED, Copies(q, n)) && AllInRange(CONFIGURED, Copies(q, n))
    ensures
      var outcomes := ServeRun(CONFIGURED, FloatProduct(rnd), Copies(q, n)).outcomes;
      var s := q.sampled - q.sampled % 10000;
      && s >= 10000 && |outcomes| == n
      && ForwardedIn(Copies(q, n), outcomes, q.method_, u, s, s + 10000) == (if n <= 10 then n else 10)
      && ForwardedIn(Copies(q, n), outcomes, q.method_, u, s - 10000, s) == 0
      && forall i :: 0 <= i < n ==> outcomes[i] == if i < 10 then Forwarded else TooManyRequests
  {
    hide Rounding, FloatProduct, PromptRequest, Handle, InRange, AllPromptRequests, AllInRange, ServeRun, ForwardedIn;
    CopiesInRange(q, n);
    RangeOf(CONFIGURED, q);
    RangeIs(q);
    if n == 0 {
      NoneForwarded(q.method_, u);
    } else {
      CopiesServed(rnd, q, u, n - 1);
      var before, s := Copies(q, n - 1), q.sampled - q.sampled % 10000;
      var a := ServeRun(CONFIGURED, FloatProduct(rnd), before);
      var o := Handle(a.counters, CONFIGURED, FloatProduct(rnd), q).outcome;
      ConfiguredFreshBucket(rnd, before, q, q.method_, u, s);
      OnlyAdmittedPass(a.counters, CONFIGURED, FloatProduct(rnd), q);
      ServeAppend(CONFIGURED, FloatProduct(rnd), before, q);
      ForwardedAppend(before, a.outcomes, q, o, s, s + 10000);
      ForwardedAppend(before, a.outcomes, q, o, s - 10000, s);
    }
  }

  lemma NoneForwarded(m: string, u: string)
    ensures forall lo, hi :: ForwardedIn([], [], m, u, lo, hi) == 0
  {}

  lemma RangeIs(q: Request)
    requires InRange(CONFIGURED, q) && q.header != Missing && q.method_ != "POST"
    ensures q.sampled >= 10000 && q.sampled - q.sampled % 10000 >= 10000
  {}
}

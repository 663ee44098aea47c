/** Waiting helps: the estimate of a caller who is not admitted only falls. */
module RateWaiting {
  import opened RateArithmetic
  import opened RateFloat
  import opened RateKeys
  import opened RateStore
  import opened RateLog
  import opened RateRuns
  import opened RateTheorems

  /** A product that keeps order at every count, offset and window the limiter can meet: it falls along the
      bucket, between the count and zero. */
  ghost predicate Monotone(cfg: RateLimitConfig, f: Product)
    requires ValidConfig(cfg)
  {
    forall id: Identity, p: nat, r: nat, r': nat :: p <= Cap(cfg, id) && r <= r' < Window(cfg, id) ==>
      0.0 <= f(p, r', Window(cfg, id)) <= f(p, r, Window(cfg, id)) <= p as real
  }

  /** So does the product computed in double precision, for limits up to 2^53 and windows of 64 bits. */
  lemma DoubleIsMonotone(cfg: RateLimitConfig, rnd: real -> real)
    requires ValidConfig(cfg) && Rounding(rnd) && forall id: Identity :: Cap(cfg, id) <= P53 && Window(cfg, id) < U64
    ensures Monotone(cfg, FloatProduct(rnd))
  {
    hide Rounding, FloatProduct, Cap, Window;
    forall id: Identity, p: nat, r: nat, r': nat | p <= Cap(cfg, id) && r <= r' < Window(cfg, id)
      ensures 0.0 <= FloatProduct(rnd)(p, r', Window(cfg, id)) <= FloatProduct(rnd)(p, r, Window(cfg, id)) <= p as real
    {
      FloatFalls(rnd, p, r, r', Window(cfg, id));
    }
  }

  lemma CeilMonotone(x: real, y: real)
    requires x <= y
    ensures Ceil(x) <= Ceil(y)
  {}

  lemma WeightedFalls(cfg: RateLimitConfig, f: Product, id: Identity, p: nat, r: nat, r': nat)
    requires ValidConfig(cfg) && Monotone(cfg, f) && p <= Cap(cfg, id) && r <= r' < Window(cfg, id)
    ensures 0 <= Ceil(f(p, r', Window(cfg, id))) <= Ceil(f(p, r, Window(cfg, id))) <= p
  {
    hide Cap, Window;
    var w := Window(cfg, id);
    CeilMonotone(0.0, f(p, r', w));
    CeilMonotone(f(p, r', w), f(p, r, w));
    CeilMonotone(f(p, r, w), p as real);
  }

  lemma MonotoneIsNotNegative(cfg: RateLimitConfig, f: Product)
    requires ValidConfig(cfg) && Monotone(cfg, f)
    ensures NotNegative(cfg, f)
  {
    hide Cap, Window, Monotone;
    forall id: Identity, p: nat, r: nat | p <= Cap(cfg, id) && r < Window(cfg,
      id) ensures Ceil(f(p, r, Window(cfg, id))) >= 0 {
      WeightedFalls(cfg, f, id, p, r, r);
    }
  }

  /** No bucket of `id` holds more than the limit. */
  ghost predicate WithinCap(cfg: RateLimitConfig, log: seq<Admission>, id: Identity)
    requires ValidConfig(cfg)
  {
    forall b: nat :: Bucket(cfg, log, id, b) <= Cap(cfg, id)
  }

  lemma RunWithinCap(cfg: RateLimitConfig, f: Product, calls: seq<Call>, id: Identity)
    requires ValidConfig(cfg) && Monotone(cfg, f) && AllPrompt(cfg, calls)
    ensures WithinCap(cfg, LogRun(cfg, f, calls).log, id)
  {
    hide Cap, Monotone, StoreRun, LogRun, Bucket, NotNegative, Prompt, Punctual;
    CountersRefineLog(cfg, f, calls);
    MonotoneIsNotNegative(cfg, f);
    forall i | 0 <= i < |calls| ensures Punctual(cfg, calls[i]) {
      PromptIsPunctual(cfg, calls[i]);
    }
    forall b: nat ensures Bucket(cfg, LogRun(cfg, f, calls).log, id, b) <= Cap(cfg, id) {
      LateBucketBound(cfg, f, calls, id, b);
    }
  }

  lemma CountsWithinCap(cfg: RateLimitConfig, log: seq<Admission>, id: Identity, t: nat)
    requires ValidConfig(cfg) && WithinCap(cfg, log, id)
    ensures Current(log, id, t, Window(cfg, id)) <= Cap(cfg, id)
      && Previous(log, id, t, Window(cfg, id)) <= Cap(cfg, id)
  {
    hide Cap, Window, Bucket, CountIn, BucketNumber;
    CurrentIsBucket(cfg, log, id, t);
  }

  /** While `id` is not admitted its rate only falls, within a bucket and across buckets, on every log whose
      buckets keep the limit. */
  lemma RateFalls(cfg: RateLimitConfig, f: Product, log: seq<Admission>, id: Identity, t: nat, t': nat)
    requires ValidConfig(cfg) && Monotone(cfg, f) && WithinCap(cfg, log, id) && t <= t'
    requires forall i :: 0 <= i < |log| && log[i].id == id ==> log[i].at <= t
    ensures
      var w := Window(cfg, id);
      && 0 <= LogRate(log, f, id, t', w) <= LogRate(log, f, id, t, w)
      && (BucketStart(t', w) >= BucketStart(t, w) + 2 * w ==> LogRate(log, f, id, t', w) == 0)
  {
    hide Monotone, WithinCap, CountIn, Window, Cap;
    var w := Window(cfg, id);
    StartsApart(t, t', w);
    DivMod(t, w);
    DivMod(t', w);
    CountsWithinCap(cfg, log, id, t);
    CountsWithinCap(cfg, log, id, t');
    var s, s' := BucketStart(t, w), BucketStart(t', w);
    WeightedFalls(cfg, f, id, Previous(log, id, t, w), t % w, t % w);
    WeightedFalls(cfg, f, id, Previous(log, id, t', w), t' % w, t' % w);
    if s == s' {
      WeightedFalls(cfg, f, id, Previous(log, id, t, w), t % w, t' % w);
    } else {
      CountNone(log, id, s', s' + w);
      if s' >= s + 2 * w {
        CountNone(log, id, s' - w, s');
      }
    }
  }

  lemma {:induction false} LoggedBefore(cfg: RateLimitConfig, f: Product, calls: seq<Call>, id: Identity, t: nat)
    requires ValidConfig(cfg) && forall i :: 0 <= i < |calls| && calls[i].id == id ==> calls[i].sampled < t
    ensures
      var log := LogRun(cfg, f, calls).log;
      forall i :: 0 <= i < |log| && log[i].id == id ==> log[i].at < t
  {
    hide Admits;
    if calls != [] {
      var before, c := calls[..|calls| - 1], calls[|calls| - 1];
      assert forall i :: 0 <= i < |before| ==> before[i] == calls[i];
      assert c.id == id ==> c.sampled < t;
      LoggedBefore(cfg, f, before, id, t);
      var log := LogRun(cfg, f, before).log;
      assert LogRun(cfg, f, calls) == Record(LogRun(cfg, f, before), c, Admits(cfg, f, log, c.id, c.sampled));
    }
  }

  /** Calls whose `id` is denied every time leave the counts of `id` alone, whatever others are admitted. */
  lemma {:induction false} DeniedLeavesCounts(cfg: RateLimitConfig, f: Product, calls: seq<Call>, more: seq<Call>,
        id: Identity, lo: nat, hi: nat)
    requires ValidConfig(cfg)
    requires forall i :: |calls| <= i < |calls + more| && (calls + more)[i].id == id ==>
      !LogRun(cfg, f, calls + more).decisions[i]
    ensures CountIn(LogRun(cfg, f, calls + more).log, id, lo, hi) == CountIn(LogRun(cfg, f, calls).log, id, lo, hi)
    decreases |more|
  {
    hide Admits, CountIn;
    if more == [] {
      assert calls + more == calls;
    } else {
      var all, before, c := calls + more, more[..|more| - 1], more[|more| - 1];
      assert all[..|all| - 1] == calls + before && all[|all| - 1] == c;
      var r, r' := LogRun(cfg, f, calls + before), LogRun(cfg, f, all);
      assert r' == Record(r, c, Admits(cfg, f, r.log, c.id, c.sampled));
      forall i | |calls| <= i < |calls + before| && (calls + before)[i].id == id ensures !r.decisions[i] {
        assert all[i].id == id && r'.decisions[i] == r.decisions[i];
      }
      DeniedLeavesCounts(cfg, f, calls, before, id, lo, hi);
      CountAppend(r.log, Admission(c.id, c.sampled), id, lo, hi);
    }
  }

  /** The answer to `c` as the next call of a run on the counters. */
  predicate Answer(cfg: RateLimitConfig, f: Product, calls: seq<Call>, c: Call)
    requires ValidConfig(cfg) && WellTimed(cfg, calls) && c.sampled >= Window(cfg, c.id)
  {
    Check(StoreRun(cfg, f, calls).counters, cfg, f, c.id, c.sampled, c.executed).allowed
  }

  lemma AnswerIs(cfg: RateLimitConfig, f: Product, calls: seq<Call>, c: Call)
    requires ValidConfig(cfg) && AllPrompt(cfg, calls) && IsMethod(c.id.method_) && c.sampled >= Window(cfg, c.id)
      && Prompt(cfg, c)
    ensures Answer(cfg, f, calls, c) <==> Admits(cfg, f, LogRun(cfg, f, calls).log, c.id, c.sampled)
  {
    hide Check, StoreRun, LogRun, Admits, AllPrompt, Window, Tracks;
    ArePrompt(cfg, calls);
    CountersRefineLog(cfg, f, calls);
    CountersTrackLog(cfg, f, calls);
    SameDecision(cfg, f, StoreRun(cfg, f, calls).counters, LogRun(cfg, f, calls).log, c);
  }

  /** A caller who would be admitted stays admissible until the next admission: whatever calls follow, as
      long as every one of this caller's own is denied, asking later is still granted. */
  lemma StaysAdmissible(cfg: RateLimitConfig, f: Product, calls: seq<Call>, more: seq<Call>, c: Call, later: Call)
    requires ValidConfig(cfg) && Monotone(cfg, f) && AllPrompt(cfg, calls) && AllPrompt(cfg, calls + more)
    requires IsMethod(c.id.method_) && c.sampled >= Window(cfg, c.id) && Prompt(cfg, c) && Prompt(cfg, later)
    requires c.id == later.id && c.sampled <= later.sampled
    requires forall i :: 0 <= i < |calls| && calls[i].id == c.id ==> calls[i].sampled <= c.sampled
    requires forall i :: |calls| <= i < |calls + more| && (calls + more)[i].id == c.id ==>
      !StoreRun(cfg, f, calls + more).tally.decisions[i]
    requires Answer(cfg, f, calls, c)
    ensures Answer(cfg, f, calls + more, later)
  {
    hide StoreRun, LogRun, AllPrompt, Window, Monotone, Answer, CountIn, Prompt;
    AnswerIs(cfg, f, calls, c);
    AnswerIs(cfg, f, calls + more, later);
    ArePrompt(cfg, calls + more);
    CountersRefineLog(cfg, f, calls + more);
    LoggedBefore(cfg, f, calls, c.id, c.sampled + 1);
    var w := Window(cfg, c.id);
    RunWithinCap(cfg, f, calls, c.id);
    RateFalls(cfg, f, LogRun(cfg, f, calls).log, c.id, c.sampled, later.sampled);
    var s := BucketStart(later.sampled, w);
    DeniedLeavesCounts(cfg, f, calls, more, c.id, s, s + w);
    if s >= w {
      DeniedLeavesCounts(cfg, f, calls, more, c.id, s - w, s);
    }
  }

  /** A caller idle past two bucket boundaries is admitted, whatever everyone else does. */
  lemma IdleIsAdmitted(cfg: RateLimitConfig, f: Product, calls: seq<Call>, c: Call)
    requires ValidConfig(cfg) && Monotone(cfg, f) && AllPrompt(cfg, calls) && Limit(cfg, c.id) >= 1
    requires IsMethod(c.id.method_) && c.sampled >= Window(cfg, c.id) && Prompt(cfg, c)
    requires forall i :: 0 <= i < |calls| && calls[i].id == c.id ==>
      calls[i].sampled + Window(cfg, c.id) < BucketStart(c.sampled, Window(cfg, c.id))
    ensures Answer(cfg, f, calls, c)
  {
    hide StoreRun, LogRun, AllPrompt, Window, Answer, CountIn, Prompt, Monotone;
    AnswerIs(cfg, f, calls, c);
    var w := Window(cfg, c.id);
    var s := BucketStart(c.sampled, w);
    StartIsMultiple(c.sampled, w);
    DivMod(c.sampled, w);
    if s == w {
      LoggedBefore(cfg, f, calls, c.id, 0);
    } else {
      LoggedBefore(cfg, f, calls, c.id, s - w);
    }
    var log := LogRun(cfg, f, calls).log;
    CountNone(log, c.id, s, s + w);
    CountNone(log, c.id, s - w, s);
    WeightedFalls(cfg, f, c.id, 0, c.sampled % w, c.sampled % w);
  }
}

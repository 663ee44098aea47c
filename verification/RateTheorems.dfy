/** What the limiter guarantees over whole runs on the expiring counters. */
module RateTheorems {
  import opened RateArithmetic
  import opened RateFloat
  import opened RateKeys
  import opened RateStore
  import opened RateLog
  import opened RateRuns

  /** Every script runs before its bucket ends; nothing is said of their order. */
  predicate AllPrompt(cfg: RateLimitConfig, calls: seq<Call>)
    requires ValidConfig(cfg)
  {
    WellTimed(cfg, calls) && forall i :: 0 <= i < |calls| ==> Prompt(cfg, calls[i])
  }

  /** The scripts of one identity run bucket by bucket; inside a bucket, and across identities, in any order. */
  predicate InBucketOrder(cfg: RateLimitConfig, calls: seq<Call>, id: Identity)
    requires ValidConfig(cfg)
  {
    forall i, j :: 0 <= i < j < |calls| && calls[i].id == calls[j].id == id ==>
      BucketNumber(calls[i].sampled, Window(cfg, id)) <= BucketNumber(calls[j].sampled, Window(cfg, id))
  }

  /** Prompt scripts that run in the order their times were sampled. */
  predicate Timely(cfg: RateLimitConfig, calls: seq<Call>)
    requires ValidConfig(cfg)
  {
    AllPrompt(cfg, calls) && forall i, j :: 0 <= i < j < |calls| ==> calls[i].sampled <= calls[j].sampled
  }

  lemma TimelyIsInOrder(cfg: RateLimitConfig, calls: seq<Call>, id: Identity)
    requires ValidConfig(cfg) && Timely(cfg, calls)
    ensures InBucketOrder(cfg, calls, id)
  {
    hide Window, Prompt, BucketNumber;
    forall i, j | 0 <= i < j < |calls| && calls[i].id == calls[j].id == id
      ensures BucketNumber(calls[i].sampled, Window(cfg, id)) <= BucketNumber(calls[j].sampled, Window(cfg, id))
    {
      NumberMonotone(calls[i].sampled, calls[j].sampled, Window(cfg, id));
    }
  }

  lemma NumberMonotone(t: nat, t': nat, w: nat)
    requires w > 0 && t <= t'
    ensures BucketNumber(t, w) <= BucketNumber(t', w)
  {
    StartOfBucket(t, w);
    StartOfBucket(t', w);
    Distribute(BucketNumber(t', w), 1, w);
    MulCancel(BucketNumber(t, w), BucketNumber(t', w) + 1, w);
  }

  // ---------------------------------------------------------------- upper bounds

  /** A product that may round up only denies more: its admissions are admissions of the exact rate. */
  lemma RoundingOnlyTightens(cfg: RateLimitConfig, f: Product, log: seq<Admission>, id: Identity, t: nat)
    requires ValidConfig(cfg) && Faithful(cfg, f) && Previous(log, id, t, Window(cfg, id)) <= Cap(cfg, id)
    requires Admits(cfg, f, log, id, t)
    ensures LogEstimate(log, id, t, Window(cfg, id)) < Limit(cfg, id)
  {
    hide Previous, Current, Window, Cap;
    DivMod(t, Window(cfg, id));
    RoundedCeiling(f, Previous(log, id, t, Window(cfg, id)), t % Window(cfg, id), Window(cfg, id));
  }

  lemma {:induction false} NothingUnderOne(cfg: RateLimitConfig, log: seq<Admission>, id: Identity, lo: nat, hi: nat)
    requires ValidConfig(cfg) && AdmittedLog(cfg, log, id) && Limit(cfg, id) < 1
    ensures CountIn(log, id, lo, hi) == 0
  {
    hide LogEstimate, Window, Limit;
    if log != [] {
      NothingUnderOne(cfg, log[..|log| - 1], id, lo, hi);
    }
  }

  /** A log that keeps the rule never has more than the limit in a bucket. */
  lemma PreviousWithinCap(cfg: RateLimitConfig, log: seq<Admission>, id: Identity, t: nat)
    requires ValidConfig(cfg) && AdmittedLog(cfg, log, id)
    ensures Previous(log, id, t, Window(cfg, id)) <= Cap(cfg, id)
  {
    hide AdmittedLog, CountIn, Window, Limit;
    var w := Window(cfg, id);
    var s := BucketStart(t, w);
    StartIsMultiple(t, w);
    if s >= w {
      MultipleStep(s, w);
      if Limit(cfg, id) < 1 {
        NothingUnderOne(cfg, log, id, s - w, s);
      } else {
        BucketAtMostLimit(cfg, log, id, s - w);
      }
    }
  }

  lemma AdmittedAppend(cfg: RateLimitConfig, log: seq<Admission>, a: Admission, id: Identity)
    requires ValidConfig(cfg) && AdmittedLog(cfg, log, id)
    requires a.id == id ==>
      && InTurn(log, a, Window(cfg, id)) && a.at >= Window(cfg, id)
      && LogEstimate(log, id, a.at, Window(cfg, id)) < Limit(cfg, id)
    ensures AdmittedLog(cfg, log + [a], id)
  {
    hide LogEstimate, Window, Limit, InTurn;
    assert (log + [a])[..|log|] == log;
  }

  /** No admission of `id` lies in a bucket later than number `b`. */
  predicate Within(log: seq<Admission>, id: Identity, w: nat, b: nat)
    requires w > 0
  {
    forall i :: 0 <= i < |log| && log[i].id == id ==> BucketNumber(log[i].at, w) <= b
  }

  lemma NothingWithin(id: Identity, w: nat, b: nat)
    requires w > 0
    ensures Within([], id, w, b)
  {}

  lemma WithinAppend(log: seq<Admission>, a: Admission, id: Identity, w: nat, b: nat)
    requires w > 0 && Within(log, id, w, b) && (a.id == id ==> BucketNumber(a.at, w) <= b)
    ensures Within(log + [a], id, w, b)
  {
    hide BucketNumber;
  }

  /** The log of `id` stays in the buckets its calls came from. */
  lemma {:induction false} LoggedWithin(cfg: RateLimitConfig, f: Product, calls: seq<Call>, id: Identity, w: nat,
        b: nat)
    requires ValidConfig(cfg) && w > 0
    requires forall i :: 0 <= i < |calls| && calls[i].id == id ==> BucketNumber(calls[i].sampled, w) <= b
    ensures Within(LogRun(cfg, f, calls).log, id, w, b)
  {
    hide Admits, BucketNumber, Within;
    if calls != [] {
      var before, c := calls[..|calls| - 1], calls[|calls| - 1];
      assert forall i :: 0 <= i < |before| ==> before[i] == calls[i];
      assert calls[|calls| - 1].id == id ==> BucketNumber(calls[|calls| - 1].sampled, w) <= b;
      LoggedWithin(cfg, f, before, id, w, b);
      WithinAppend(LogRun(cfg, f, before).log, Admission(c.id, c.sampled), id, w, b);
    } else {
      NothingWithin(id, w, b);
    }
  }

  lemma OrderPrefix(cfg: RateLimitConfig, calls: seq<Call>, id: Identity)
    requires ValidConfig(cfg) && WellTimed(cfg, calls) && InBucketOrder(cfg, calls, id) && calls != []
    ensures
      var before, c := calls[..|calls| - 1], calls[|calls| - 1];
      && WellTimed(cfg, before) && InBucketOrder(cfg, before, id) && c.sampled >= Window(cfg, c.id)
      && forall i :: 0 <= i < |before| && before[i].id == id == c.id ==>
           BucketNumber(before[i].sampled, Window(cfg, id)) <= BucketNumber(c.sampled, Window(cfg, id))
  {
    hide Window, BucketNumber;
  }

  /** The log of every run in which the scripts of `id` come in bucket order keeps the rule for `id`. */
  lemma {:induction false} LogRunIsAdmitted(cfg: RateLimitConfig, f: Product, calls: seq<Call>, id: Identity)
    requires ValidConfig(cfg) && Faithful(cfg, f) && WellTimed(cfg, calls) && InBucketOrder(cfg, calls, id)
    ensures AdmittedLog(cfg, LogRun(cfg, f, calls).log, id)
  {
    hide Faithful, Admits, LogEstimate, Window, Limit, WellTimed, InBucketOrder, AdmittedLog, Previous, Cap;
    if calls == [] {
      EmptyAdmitted(cfg, id);
    } else {
      var before, c := calls[..|calls| - 1], calls[|calls| - 1];
      OrderPrefix(cfg, calls, id);
      LogRunIsAdmitted(cfg, f, before, id);
      var log := LogRun(cfg, f, before).log;
      if Admits(cfg, f, log, c.id, c.sampled) {
        if c.id == id {
          PreviousWithinCap(cfg, log, id, c.sampled);
          RoundingOnlyTightens(cfg, f, log, id, c.sampled);
          LoggedWithin(cfg, f, before, id, Window(cfg, id), BucketNumber(c.sampled, Window(cfg, id)));
        }
        AdmittedAppend(cfg, log, Admission(c.id, c.sampled), id);
      }
    }
  }

  lemma EmptyAdmitted(cfg: RateLimitConfig, id: Identity)
    requires ValidConfig(cfg)
    ensures AdmittedLog(cfg, [], id)
  {}

  /** The limiter's guarantees for one identity, for every run of prompt scripts on the expiring counters in which
      its own come in bucket order, and every faithful product: the window bound, the long-run bounds, and the
      gap at limit 1. */
  lemma RunBounds(cfg: RateLimitConfig, f: Product, calls: seq<Call>, id: Identity, a: nat, b: nat, k: nat)
    requires ValidConfig(cfg) && Faithful(cfg, f) && AllPrompt(cfg, calls) && InBucketOrder(cfg, calls, id)
    requires Limit(cfg, id) >= 1 && k >= 1
    ensures
      var log, l, w := StoreRun(cfg, f, calls).tally.log, Limit(cfg, id), Window(cfg, id);
      && CountIn(log, id, a, a + w + 1) <= 2 * l - CeilDiv(l, w)
      && CountIn(log, id, Opens(b, w), Opens(b, w) + k * w) <= Shares(l, w, k) <= LongRun(l, k)
      && (l == 1 ==>
            forall i, j :: 0 <= i < j < |log| && log[i].id == log[j].id == id ==> log[j].at > log[i].at + w)
  {
    hide Faithful, Window, Limit, AdmittedLog, CountIn, CeilDiv, LongRun, StoreRun, LogRun, Shares, InBucketOrder;
    hide Prompt;
    CountersRefineLog(cfg, f, calls);
    LogRunIsAdmitted(cfg, f, calls, id);
    var log, w := StoreRun(cfg, f, calls).tally.log, Window(cfg, id);
    WindowBound(cfg, log, id, a);
    MultipleHasNoRest(Opens(b, w), b, w);
    SharesBound(cfg, log, id, Opens(b, w), k);
    SharesWithin(Limit(cfg, id), w, k);
    if Limit(cfg, id) == 1 {
      forall i, j | 0 <= i < j < |log| && log[i].id == log[j].id == id ensures log[j].at > log[i].at + w {
        MinimumGap(cfg, log, id, i, j);
      }
    }
  }

  // -------------------------------------------------------------- double precision

  /** Limits and windows small enough for double precision, and windows that fit in 64 bits. */
  ghost predicate FitsDouble(cfg: RateLimitConfig)
    requires ValidConfig(cfg)
  {
    forall id: Identity :: Window(cfg, id) < U64 && 3 * (Cap(cfg, id) * Window(cfg, id)) < P53
  }

  /** For such limits the product computed in double precision is faithful, and so never negative. */
  lemma DoubleIsFaithful(cfg: RateLimitConfig, rnd: real -> real)
    requires ValidConfig(cfg) && Rounding(rnd) && FitsDouble(cfg)
    ensures Faithful(cfg, FloatProduct(rnd)) && NotNegative(cfg, FloatProduct(rnd))
  {
    hide Rounding, FloatProduct, Cap, Window, NotNegative;
    forall id: Identity, p: nat, r: nat | p <= Cap(cfg, id) && r < Window(cfg, id)
      ensures FaithfulAt(FloatProduct(rnd), p, r, Window(cfg, id))
    {
      MulKeepsOrder(p, Cap(cfg, id), Window(cfg, id));
      FloatIsFaithful(rnd, p, r, Window(cfg, id));
    }
    FaithfulIsNotNegative(cfg, FloatProduct(rnd));
  }

  /** The limits the server is started with. */
  const CONFIGURED := RateLimitConfig(10, 1, 10, 5)

  lemma ConfiguredFitsDouble()
    ensures FitsDouble(CONFIGURED)
  {}

  /** As deployed, in double precision, for a user whose scripts come in bucket order: submissions are more than
      five seconds apart, and no ten seconds hold more than 19 requests of any other method. */
  lemma ConfiguredBounds(rnd: real -> real, calls: seq<Call>, user: string, method_: string, a: nat)
    requires Rounding(rnd) && AllPrompt(CONFIGURED, calls) && method_ != "POST"
    requires InBucketOrder(CONFIGURED, calls, Identity("POST", user))
    requires InBucketOrder(CONFIGURED, calls, Identity(method_, user))
    ensures
      var log, post := StoreRun(CONFIGURED, FloatProduct(rnd), calls).tally.log, Identity("POST", user);
      && (forall i, j :: 0 <= i < j < |log| && log[i].id == log[j].id == post ==> log[j].at > log[i].at + 5000)
      && CountIn(log, Identity(method_, user), a, a + 10000 + 1) <= 19
  {
    hide StoreRun, Faithful, LongRun, CountIn, Shares, Rounding, FloatProduct, FitsDouble, InBucketOrder, AllPrompt;
    assert WellTimed(CONFIGURED, calls) by { ArePrompt(CONFIGURED, calls); }
    ConfiguredFitsDouble();
    DoubleIsFaithful(CONFIGURED, rnd);
    RunBounds(CONFIGURED, FloatProduct(rnd), calls, Identity("POST", user), a, 0, 1);
    RunBounds(CONFIGURED, FloatProduct(rnd), calls, Identity(method_, user), a, 0, 1);
  }

  lemma ArePrompt(cfg: RateLimitConfig, calls: seq<Call>)
    requires ValidConfig(cfg) && AllPrompt(cfg, calls)
    ensures WellTimed(cfg, calls) && forall i :: 0 <= i < |calls| ==> Prompt(cfg, calls[i])
  {}

  // ------------------------------------------------------ the rule is the whole story

  lemma ExactAdmits(cfg: RateLimitConfig, log: seq<Admission>, id: Identity, t: nat)
    requires ValidConfig(cfg)
    ensures Admits(cfg, ExactProduct, log, id, t) <==> LogEstimate(log, id, t, Window(cfg, id)) < Limit(cfg, id)
  {
    hide Previous, Current, Window, ExactProduct;
    DivMod(t, Window(cfg, id));
    ExactCeiling(Previous(log, id, t, Window(cfg, id)), t % Window(cfg, id), Window(cfg, id));
  }

  /** Each admission asked for again at its own time. */
  function Replay(log: seq<Admission>): seq<Call> {
    if log == [] then [] else Replay(log[..|log| - 1]) + [Call(log[|log| - 1].id, log[|log| - 1].at, log[|log| - 1].at)]
  }

  lemma {:induction false} ReplayIs(log: seq<Admission>)
    ensures |Replay(log)| == |log|
    ensures forall i :: 0 <= i < |log| ==> Replay(log)[i] == Call(log[i].id, log[i].at, log[i].at)
  {
    if log != [] {
      ReplayIs(log[..|log| - 1]);
    }
  }

  /** The rule kept for every identity. */
  ghost predicate KeepsRule(cfg: RateLimitConfig, log: seq<Admission>)
    requires ValidConfig(cfg)
  {
    forall id: Identity :: AdmittedLog(cfg, log, id)
  }

  lemma ReplayIsPrompt(cfg: RateLimitConfig, log: seq<Admission>)
    requires ValidConfig(cfg) && KeepsRule(cfg, log) && forall i :: 0 <= i < |log| ==> IsMethod(log[i].id.method_)
    ensures AllPrompt(cfg, Replay(log))
  {
    hide Window, AdmittedLog;
    ReplayIs(log);
    forall i | 0 <= i < |log| ensures log[i].at >= Window(cfg, log[i].id) {
      PastFirst(cfg, log, log[i].id, i);
    }
  }

  lemma ReplayIsInOrder(cfg: RateLimitConfig, log: seq<Admission>, id: Identity)
    requires ValidConfig(cfg) && AdmittedLog(cfg, log, id)
    ensures InBucketOrder(cfg, Replay(log), id)
  {
    hide Window, AdmittedLog, BucketNumber;
    ReplayIs(log);
    forall i, j | 0 <= i < j < |log| && log[i].id == log[j].id == id
      ensures BucketNumber(log[i].at, Window(cfg, id)) <= BucketNumber(log[j].at, Window(cfg, id))
    {
      InOrder(cfg, log, id, i, j);
    }
  }

  lemma {:induction false} PastFirst(cfg: RateLimitConfig, log: seq<Admission>, id: Identity, i: nat)
    requires ValidConfig(cfg) && AdmittedLog(cfg, log, id) && i < |log| && log[i].id == id
    ensures log[i].at >= Window(cfg, id)
  {
    hide LogEstimate, InTurn, Window;
    if i < |log| - 1 {
      PastFirst(cfg, log[..|log| - 1], id, i);
    }
  }

  /** Every log that keeps the rule for all identities is the log of a run of prompt scripts on the expiring
      counters in which each identity's scripts come in bucket order. */
  lemma AdmittedLogsAreRuns(cfg: RateLimitConfig, log: seq<Admission>)
    requires ValidConfig(cfg) && KeepsRule(cfg, log) && forall i :: 0 <= i < |log| ==> IsMethod(log[i].id.method_)
    ensures AllPrompt(cfg, Replay(log)) && forall id: Identity :: InBucketOrder(cfg, Replay(log), id)
    ensures StoreRun(cfg, ExactProduct, Replay(log)).tally.log == log
  {
    hide Replay, AdmittedLog, StoreRun, LogRun, InBucketOrder, Prompt;
    ReplayIsPrompt(cfg, log);
    forall id: Identity ensures InBucketOrder(cfg, Replay(log), id) {
      ReplayIsInOrder(cfg, log, id);
    }
    CountersRefineLog(cfg, ExactProduct, Replay(log));
    ReplayLogs(cfg, log);
  }

  lemma RulePrefix(cfg: RateLimitConfig, log: seq<Admission>)
    requires ValidConfig(cfg) && KeepsRule(cfg, log) && log != []
    ensures
      var before, last := log[..|log| - 1], log[|log| - 1];
      KeepsRule(cfg, before) && LogEstimate(before, last.id, last.at, Window(cfg, last.id)) < Limit(cfg, last.id)
  {
    hide LogEstimate, InTurn, Window, Limit;
    var before, last := log[..|log| - 1], log[|log| - 1];
    assert AdmittedLog(cfg, log, last.id);
    forall id: Identity ensures AdmittedLog(cfg, before, id) {
      assert AdmittedLog(cfg, log, id);
    }
  }

  lemma {:induction false} ReplayLogs(cfg: RateLimitConfig, log: seq<Admission>)
    requires ValidConfig(cfg) && KeepsRule(cfg, log)
    ensures LogRun(cfg, ExactProduct, Replay(log)).log == log
  {
    hide Admits, LogEstimate, Window, Limit, ExactProduct, KeepsRule;
    if log != [] {
      var before, last := log[..|log| - 1], log[|log| - 1];
      RulePrefix(cfg, log);
      ReplayLogs(cfg, before);
      ExactAdmits(cfg, before, last.id, last.at);
      assert Replay(log)[..|Replay(before)|] == Replay(before);
      assert before + [Admission(last.id, last.at)] == log;
    }
  }
}

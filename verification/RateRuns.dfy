/** Whole runs of the limiter: expiring counters against the log that never forgets. */
module RateRuns {
  import opened Wrappers
  import opened RateArithmetic
  import opened RateKeys
  import opened RateStore
  import opened RateLog

  /** A request of `id` whose server read its clock at `sampled` and whose script Redis ran at `executed`. */
  datatype Call = Call(id: Identity, sampled: nat, executed: nat)

  /** Admissions in the order the scripts ran, and the answer given to each call. */
  datatype Tally = Tally(log: seq<Admission>, decisions: seq<bool>)

  datatype Served = Served(counters: Counters, tally: Tally)

  function Record(t: Tally, c: Call, allowed: bool): Tally {
    Tally(if allowed then t.log + [Admission(c.id, c.sampled)] else t.log, t.decisions + [allowed])
  }

  /** A request past its first bucket, as `current_bucket_id - 1` demands. */
  predicate WellTimed(cfg: RateLimitConfig, calls: seq<Call>)
    requires ValidConfig(cfg)
  {
    forall i :: 0 <= i < |calls| ==> IsMethod(calls[i].id.method_) && calls[i].sampled >= Window(cfg, calls[i].id)
  }

  /** The scripts on the counters, starting from an empty store. */
  function StoreRun(cfg: RateLimitConfig, f: Product, calls: seq<Call>): (r: Served)
    requires ValidConfig(cfg) && WellTimed(cfg, calls)
    ensures |r.tally.decisions| == |calls|
  {
    if calls == [] then Served(map[], Tally([], []))
    else
      var before := StoreRun(cfg, f, calls[..|calls| - 1]);
      var c := calls[|calls| - 1];
      var v := Check(before.counters, cfg, f, c.id, c.sampled, c.executed);
      Served(v.counters, Record(before.tally, c, v.allowed))
  }

  /** The rate a limiter that never forgets would compare with the limit. */
  function LogRate(log: seq<Admission>, f: Product, id: Identity, t: nat, w: nat): int
    requires w > 0
  {
    Ceil(f(Previous(log, id, t, w), t % w, w)) + Current(log, id, t, w)
  }

  predicate Admits(cfg: RateLimitConfig, f: Product, log: seq<Admission>, id: Identity, t: nat)
    requires ValidConfig(cfg)
  {
    LogRate(log, f, id, t, Window(cfg, id)) < Limit(cfg, id)
  }

  /** The limiter that keeps every admission. */
  function LogRun(cfg: RateLimitConfig, f: Product, calls: seq<Call>): (r: Tally)
    requires ValidConfig(cfg)
    ensures |r.decisions| == |calls|
  {
    if calls == [] then Tally([], [])
    else
      var before := LogRun(cfg, f, calls[..|calls| - 1]);
      var c := calls[|calls| - 1];
      Record(before, c, Admits(cfg, f, before.log, c.id, c.sampled))
  }

  /** The script ran after its clock reading and no later than the end of its bucket. */
  predicate Prompt(cfg: RateLimitConfig, c: Call)
    requires ValidConfig(cfg)
  {
    c.sampled <= c.executed <= BucketStart(c.sampled, Window(cfg, c.id)) + Window(cfg, c.id)
  }

  /** The script ran after its clock reading and no later than the end of the next bucket. */
  predicate Punctual(cfg: RateLimitConfig, c: Call)
    requires ValidConfig(cfg)
  {
    c.sampled <= c.executed <= BucketStart(c.sampled, Window(cfg, c.id)) + 2 * Window(cfg, c.id)
  }

  // ------------------------------------------------------ counters track the log

  /** The first millisecond of bucket number `b`. */
  function Opens(b: nat, w: nat): nat {
    ProductNonNegative(b, w);
    b * w
  }

  /** The admissions of `id` in its bucket number `b`. */
  function Bucket(cfg: RateLimitConfig, log: seq<Admission>, id: Identity, b: nat): nat
    requires ValidConfig(cfg)
  {
    CountIn(log, id, Opens(b, Window(cfg, id)), Opens(b, Window(cfg, id)) + Window(cfg, id))
  }

  /** The key of a bucket holds its number of admissions, and lives to the end of the bucket after it. */
  predicate KeyTracks(cfg: RateLimitConfig, c: Counters, log: seq<Admission>, id: Identity, b: nat)
    requires ValidConfig(cfg)
  {
    var key, n, w := Key(id, b), Bucket(cfg, log, id, b), Window(cfg, id);
    if n == 0 then key !in c
    else key in c && c[key].count == n && c[key].expiresAt.Some? && c[key].expiresAt.value >= Opens(b, w) + 2 * w
  }

  ghost predicate Tracks(cfg: RateLimitConfig, c: Counters, log: seq<Admission>)
    requires ValidConfig(cfg)
  {
    forall id: Identity, b: nat :: IsMethod(id.method_) ==> KeyTracks(cfg, c, log, id, b)
  }

  lemma ReadTracked(cfg: RateLimitConfig, c: Counters, log: seq<Admission>, id: Identity, b: nat, now: nat)
    requires ValidConfig(cfg) && KeyTracks(cfg, c, log, id, b) && now <= Opens(b, Window(cfg, id)) + 2 * Window(cfg, id)
    ensures Read(c, Key(id, b), now) == Bucket(cfg, log, id, b)
  {
    hide Opens, BucketNumber, Key, Bucket;
  }

  lemma StartOfBucket(t: nat, w: nat)
    requires w > 0
    ensures BucketStart(t, w) == Opens(BucketNumber(t, w), w)
    ensures t >= w ==> BucketNumber(t, w) >= 1 && Opens(BucketNumber(t, w) - 1, w) == BucketStart(t, w) - w
  {
    DivMod(t, w);
    assert w * (BucketNumber(t, w)) == BucketNumber(t, w) * w;
    if t >= w {
      PastFirstBucket(t, w);
      Distribute(t / w, -1, w);
    }
  }

  lemma StartsApart(t: nat, t': nat, w: nat)
    requires w > 0 && t <= t'
    ensures
      var s, s' := BucketStart(t, w), BucketStart(t', w);
      (s == s' && t % w <= t' % w) || s' == s + w || s' >= s + 2 * w
  {
    StartOfBucket(t, w);
    StartOfBucket(t', w);
    DivMod(t, w);
    DivMod(t', w);
    var b, b' := t / w, t' / w;
    assert w * b == b * w && w * b' == b' * w;
    Distribute(b', 1, w);
    MulCancel(b, b' + 1, w);
    if b' == b + 1 {
      Distribute(b, 1, w);
    } else if b' > b {
      Distribute(b, 2, w);
      MulKeepsOrder(b + 2, b', w);
    }
  }

  lemma CurrentIsBucket(cfg: RateLimitConfig, log: seq<Admission>, id: Identity, t: nat)
    requires ValidConfig(cfg)
    ensures Current(log, id, t, Window(cfg, id)) == Bucket(cfg, log, id, BucketNumber(t, Window(cfg, id)))
    ensures t >= Window(cfg, id) ==>
      BucketNumber(t, Window(cfg, id)) >= 1 && Previous(log, id, t, Window(cfg, id)) ==
        Bucket(cfg, log, id, BucketNumber(t, Window(cfg, id)) - 1)
  {
    hide Opens, BucketNumber, CountIn, Window, BucketStart;
    var w := Window(cfg, id);
    StartOfBucket(t, w);
    BucketIs(cfg, log, id, BucketNumber(t, w), BucketStart(t, w));
    if t >= w {
      StartIsMultiple(t, w);
      BucketIs(cfg, log, id, BucketNumber(t, w) - 1, BucketStart(t, w) - w);
    }
  }

  lemma BucketIs(cfg: RateLimitConfig, log: seq<Admission>, id: Identity, b: nat, s: nat)
    requires ValidConfig(cfg) && s == Opens(b, Window(cfg, id))
    ensures Bucket(cfg, log, id, b) == CountIn(log, id, s, s + Window(cfg, id))
  {
    hide Opens, BucketNumber, CountIn, Window;
  }

  /** However late up to a window, a script reads its own bucket's exact count. */
  lemma OwnCounterExact(cfg: RateLimitConfig, c: Counters, log: seq<Admission>, call: Call)
    requires ValidConfig(cfg) && Tracks(cfg, c, log) && IsMethod(call.id.method_) && Punctual(cfg, call)
    ensures Read(c, Key(call.id, BucketNumber(call.sampled, Window(cfg, call.id))), call.executed) ==
      Current(log, call.id, call.sampled, Window(cfg, call.id))
  {
    hide Opens, BucketNumber, Current, Bucket, Key, CountIn, Window, BucketStart;
    var w := Window(cfg, call.id);
    StartOfBucket(call.sampled, w);
    CurrentIsBucket(cfg, log, call.id, call.sampled);
    assert KeyTracks(cfg, c, log, call.id, BucketNumber(call.sampled, w)) by { hide KeyTracks; }
    ReadTracked(cfg, c, log, call.id, BucketNumber(call.sampled, w), call.executed);
  }

  lemma PromptIsPunctual(cfg: RateLimitConfig, call: Call)
    requires ValidConfig(cfg) && Prompt(cfg, call)
    ensures Punctual(cfg, call)
  {}

  /** A prompt script also reads the exact count of the bucket before. */
  lemma PreviousCounterExact(cfg: RateLimitConfig, c: Counters, log: seq<Admission>, call: Call)
    requires ValidConfig(cfg) && Tracks(cfg, c, log) && IsMethod(call.id.method_) && Prompt(cfg, call)
    requires call.sampled >= Window(cfg, call.id)
    ensures BucketNumber(call.sampled, Window(cfg, call.id)) >= 1
    ensures Read(c, Key(call.id, BucketNumber(call.sampled, Window(cfg, call.id)) - 1), call.executed) ==
      Previous(log, call.id, call.sampled, Window(cfg, call.id))
  {
    hide Opens, BucketNumber, Previous, Bucket, Key, CountIn, Window, BucketStart;
    var w := Window(cfg, call.id);
    StartOfBucket(call.sampled, w);
    CurrentIsBucket(cfg, log, call.id, call.sampled);
    assert KeyTracks(cfg, c, log, call.id, BucketNumber(call.sampled, w) - 1) by { hide KeyTracks; }
    ReadTracked(cfg, c, log, call.id, BucketNumber(call.sampled, w) - 1, call.executed);
  }

  /** The decision of one script equals that of the limiter that never forgets. */
  lemma SameDecision(cfg: RateLimitConfig, f: Product, c: Counters, log: seq<Admission>, call: Call)
    requires ValidConfig(cfg) && Tracks(cfg, c, log) && IsMethod(call.id.method_) && Prompt(cfg, call)
    requires call.sampled >= Window(cfg, call.id)
    ensures Check(c, cfg, f, call.id, call.sampled, call.executed).allowed <==>
      Admits(cfg, f, log, call.id, call.sampled)
  {
    hide Opens, BucketNumber, Previous, Current, Key, Read, Tracks, Window;
    PromptIsPunctual(cfg, call);
    OwnCounterExact(cfg, c, log, call);
    PreviousCounterExact(cfg, c, log, call);
  }

  /** A whole bucket holds the times whose number it is. */
  lemma InBucket(t: nat, b: nat, w: nat)
    requires w > 0
    ensures Opens(b, w) <= t < Opens(b, w) + w <==> BucketNumber(t, w) == b
  {
    DivMod(t, w);
    var d := t / w;
    assert w * d == d * w;
    Distribute(b, 1, w);
    Distribute(d, 1, w);
    if b * w <= t < b * w + w {
      MulCancel(b, d + 1, w);
      MulCancel(d, b + 1, w);
    }
  }

  lemma BucketAppend(cfg: RateLimitConfig, log: seq<Admission>, a: Admission, id: Identity, b: nat)
    requires ValidConfig(cfg)
    ensures Bucket(cfg, log + [a], id, b) ==
            Bucket(cfg, log, id, b) + if a.id == id && BucketNumber(a.at, Window(cfg, id)) == b then 1 else 0
  {
    hide Opens, BucketNumber, CountIn;
    var w := Window(cfg, id);
    CountAppend(log, a, id, Opens(b, w), Opens(b, w) + w);
    InBucket(a.at, b, w);
  }

  /** What an admitting script leaves in the store: its own key one higher, every other key as it was. */
  lemma AdmissionWrites(cfg: RateLimitConfig, f: Product, c: Counters, log: seq<Admission>, call: Call)
    requires ValidConfig(cfg) && Tracks(cfg, c, log) && IsMethod(call.id.method_) && Punctual(cfg, call)
    requires call.sampled >= Window(cfg, call.id)
    requires Check(c, cfg, f, call.id, call.sampled, call.executed).allowed
    ensures
      var w := Window(cfg, call.id);
      var key := Key(call.id, BucketNumber(call.sampled, w));
      var c' := Check(c, cfg, f, call.id, call.sampled, call.executed).counters;
      var n := Current(log, call.id, call.sampled, w);
      && (n == 0 ==> c' == c[key := Counter(1, Some(call.executed + 2 * w))])
      && (n > 0 ==> key in c && c' == c[key := Counter(n + 1, c[key].expiresAt)])
  {
    hide Opens, BucketNumber, Current, Key, CountIn, Bucket;
    OwnCounterExact(cfg, c, log, call);
    CurrentIsBucket(cfg, log, call.id, call.sampled);
    var w := Window(cfg, call.id);
    assert KeyTracks(cfg, c, log, call.id, BucketNumber(call.sampled, w));
  }

  /** One punctual script keeps the counters tracking the log. */
  lemma ScriptKeepsTracking(cfg: RateLimitConfig, f: Product, c: Counters, log: seq<Admission>, call: Call)
    requires ValidConfig(cfg) && Tracks(cfg, c, log) && IsMethod(call.id.method_) && Punctual(cfg, call)
    requires call.sampled >= Window(cfg, call.id)
    ensures
      var v := Check(c, cfg, f, call.id, call.sampled, call.executed);
      Tracks(cfg, v.counters, if v.allowed then log + [Admission(call.id, call.sampled)] else log)
  {
    hide Opens, BucketNumber, Current, Key, CountIn, Bucket, Check;
    var v := Check(c, cfg, f, call.id, call.sampled, call.executed);
    if v.allowed {
      var a := Admission(call.id, call.sampled);
      AdmissionWrites(cfg, f, c, log, call);
      forall id: Identity, b: nat | IsMethod(id.method_)
        ensures KeyTracks(cfg, v.counters, log + [a], id, b)
      {
        assert KeyTracks(cfg, c, log, id, b);
        BucketAppend(cfg, log, a, id, b);
        if id == call.id && b == BucketNumber(call.sampled, Window(cfg, id)) {
          OwnKeyTracks(cfg, f, c, log, call);
        } else if Key(id, b) == Key(call.id, BucketNumber(call.sampled, Window(cfg, call.id))) {
          KeysAreInjective(id, call.id, b, BucketNumber(call.sampled, Window(cfg, call.id)));
        }
      }
    } else {
      DenialChangesNothing(c, cfg, f, call.id, call.sampled, call.executed);
    }
  }

  lemma OwnKeyTracks(cfg: RateLimitConfig, f: Product, c: Counters, log: seq<Admission>, call: Call)
    requires ValidConfig(cfg) && Tracks(cfg, c, log) && IsMethod(call.id.method_) && Punctual(cfg, call)
    requires call.sampled >= Window(cfg, call.id)
    requires Check(c, cfg, f, call.id, call.sampled, call.executed).allowed
    ensures
      KeyTracks(cfg, Check(c, cfg, f, call.id, call.sampled, call.executed).counters,
        log + [Admission(call.id, call.sampled)], call.id, BucketNumber(call.sampled, Window(cfg, call.id)))
  {
    hide Opens, BucketNumber, Current, Key, CountIn, Bucket, Check, Window;
    var w := Window(cfg, call.id);
    var b := BucketNumber(call.sampled, w);
    AdmissionWrites(cfg, f, c, log, call);
    CurrentIsBucket(cfg, log, call.id, call.sampled);
    BucketAppend(cfg, log, Admission(call.id, call.sampled), call.id, b);
    StartOfBucket(call.sampled, w);
    assert KeyTracks(cfg, c, log, call.id, b);
  }

  /** A denied request leaves the counters as they were. */
  lemma DenialChangesNothing(c: Counters, cfg: RateLimitConfig, f: Product, id: Identity, sampled: nat, now: nat)
    requires ValidConfig(cfg) && sampled >= Window(cfg, id)
    requires !Check(c, cfg, f, id, sampled, now).allowed
    ensures Check(c, cfg, f, id, sampled, now).counters == c
  {}

  /** In every run of scripts at most a window late, in any order and for all identities together, each
      key holds exactly its bucket's admissions. */
  lemma {:induction false} CountersTrackLog(cfg: RateLimitConfig, f: Product, calls: seq<Call>)
    requires ValidConfig(cfg) && WellTimed(cfg, calls) && forall i :: 0 <= i < |calls| ==> Punctual(cfg, calls[i])
    ensures
      var r := StoreRun(cfg, f, calls);
      Tracks(cfg, r.counters, r.tally.log)
  {
    hide Opens, BucketNumber, Check, KeyTracks;
    if calls == [] {
      NothingTracked(cfg);
    } else {
      var before, c := calls[..|calls| - 1], calls[|calls| - 1];
      CountersTrackLog(cfg, f, before);
      var r := StoreRun(cfg, f, before);
      ScriptKeepsTracking(cfg, f, r.counters, r.tally.log, c);
    }
  }

  lemma NothingTracked(cfg: RateLimitConfig)
    requires ValidConfig(cfg)
    ensures Tracks(cfg, map[], [])
  {}

  /** Expiring counters refine the full log: while scripts run before their bucket ends, every decision
      of every run, for all identities in one store, is that of a limiter that never forgets. */
  lemma {:induction false} CountersRefineLog(cfg: RateLimitConfig, f: Product, calls: seq<Call>)
    requires ValidConfig(cfg) && WellTimed(cfg, calls) && forall i :: 0 <= i < |calls| ==> Prompt(cfg, calls[i])
    ensures StoreRun(cfg, f, calls).tally == LogRun(cfg, f, calls)
  {
    hide Opens, BucketNumber, Check, Admits, Prompt, Punctual, Tracks;
    if calls != [] {
      var before, c := calls[..|calls| - 1], calls[|calls| - 1];
      CountersRefineLog(cfg, f, before);
      var r := StoreRun(cfg, f, before);
      forall i | 0 <= i < |before| ensures Punctual(cfg, before[i]) {
        assert Prompt(cfg, calls[i]);
        PromptIsPunctual(cfg, before[i]);
      }
      CountersTrackLog(cfg, f, before);
      SameDecision(cfg, f, r.counters, r.tally.log, c);
    }
  }

  // ----------------------------------------------------------- bounds while late

  /** The counts a script may be asked to weigh: none is above the limit. */
  function Cap(cfg: RateLimitConfig, id: Identity): nat {
    if Limit(cfg, id) < 0 then 0 else Limit(cfg, id)
  }

  /** A product that is faithful at every count, offset and window the limiter can meet. */
  ghost predicate Faithful(cfg: RateLimitConfig, f: Product)
    requires ValidConfig(cfg)
  {
    forall id: Identity, p: nat, r: nat :: p <= Cap(cfg, id) && r < Window(cfg, id) ==>
      FaithfulAt(f, p, r, Window(cfg, id))
  }

  /** A product that never rounds up to a negative weighted count there. */
  ghost predicate NotNegative(cfg: RateLimitConfig, f: Product)
    requires ValidConfig(cfg)
  {
    forall id: Identity, p: nat, r: nat :: p <= Cap(cfg, id) && r < Window(cfg, id) ==>
      Ceil(f(p, r, Window(cfg, id))) >= 0
  }

  lemma ExactIsFaithful(cfg: RateLimitConfig)
    requires ValidConfig(cfg)
    ensures Faithful(cfg, ExactProduct)
  {
    forall id: Identity, p: nat, r: nat | p <= Cap(cfg, id) && r < Window(cfg, id)
      ensures FaithfulAt(ExactProduct, p, r, Window(cfg, id))
    {
      OverPositive(Window(cfg, id));
    }
  }

  lemma FaithfulIsNotNegative(cfg: RateLimitConfig, f: Product)
    requires ValidConfig(cfg) && Faithful(cfg, f)
    ensures NotNegative(cfg, f)
  {
    hide Window, Cap;
    forall id: Identity, p: nat, r: nat | p <= Cap(cfg, id) && r < Window(cfg,
      id) ensures Ceil(f(p, r, Window(cfg, id))) >= 0 {
      RoundedCeiling(f, p, r, Window(cfg, id));
    }
  }

  /** Scripts at most a window late, in any order: no bucket ever totals more than the limit. */
  lemma {:induction false} LateBucketBound(cfg: RateLimitConfig, f: Product, calls: seq<Call>, id: Identity, b: nat)
    requires ValidConfig(cfg) && NotNegative(cfg, f) && WellTimed(cfg, calls)
    requires forall i :: 0 <= i < |calls| ==> Punctual(cfg, calls[i])
    ensures Bucket(cfg, StoreRun(cfg, f, calls).tally.log, id, b) <= Cap(cfg, id)
  {
    hide Opens, BucketNumber, Check, Punctual, Tracks, NotNegative, Bucket, Limit, Window;
    if calls == [] {
      EmptyBucket(cfg, id, b);
    } else {
      var before, c := calls[..|calls| - 1], calls[|calls| - 1];
      LateBucketBound(cfg, f, before, id, b);
      CountersTrackLog(cfg, f, before);
      var r := StoreRun(cfg, f, before);
      BucketAppend(cfg, r.tally.log, Admission(c.id, c.sampled), id, b);
      if c.id == id && b == BucketNumber(c.sampled, Window(cfg, id))
        && Check(r.counters, cfg, f, c.id, c.sampled, c.executed).allowed {
        PastFirstBucket(c.sampled, Window(cfg, id));
        LateBucketBound(cfg, f, before, id, b - 1);
        AdmittedUnderLimit(cfg, f, r.counters, r.tally.log, c);
      }
    }
  }

  lemma EmptyBucket(cfg: RateLimitConfig, id: Identity, b: nat)
    requires ValidConfig(cfg)
    ensures Bucket(cfg, [], id, b) == 0
  {}

  /** A tracked key never reads more than its bucket holds. */
  lemma ReadAtMost(cfg: RateLimitConfig, c: Counters, log: seq<Admission>, id: Identity, b: nat, now: nat)
    requires ValidConfig(cfg) && Tracks(cfg, c, log) && IsMethod(id.method_)
    ensures Read(c, Key(id, b), now) <= Bucket(cfg, log, id, b)
  {
    hide Opens, Key, Bucket, Window;
    assert KeyTracks(cfg, c, log, id, b);
  }

  lemma AdmittedUnderLimit(cfg: RateLimitConfig, f: Product, c: Counters, log: seq<Admission>, call: Call)
    requires ValidConfig(cfg) && NotNegative(cfg, f) && Tracks(cfg, c, log) && IsMethod(call.id.method_)
      && Punctual(cfg, call)
    requires call.sampled >= Window(cfg, call.id) && BucketNumber(call.sampled, Window(cfg, call.id)) >= 1
    requires Bucket(cfg, log, call.id, BucketNumber(call.sampled, Window(cfg, call.id)) - 1) <= Cap(cfg, call.id)
    requires Check(c, cfg, f, call.id, call.sampled, call.executed).allowed
    ensures Bucket(cfg, log, call.id, BucketNumber(call.sampled, Window(cfg, call.id))) < Limit(cfg, call.id)
  {
    hide Opens, BucketNumber, Tracks, Current, Bucket, Key, Read, Window, Cap, Ceil;
    var w := Window(cfg, call.id);
    OwnCounterExact(cfg, c, log, call);
    CurrentIsBucket(cfg, log, call.id, call.sampled);
    DivMod(call.sampled, w);
    ReadAtMost(cfg, c, log, call.id, BucketNumber(call.sampled, w) - 1, call.executed);
    assert Ceil(f(Read(c, Key(call.id, BucketNumber(call.sampled, w) - 1), call.executed), call.sampled % w, w)) >= 0;
  }
}

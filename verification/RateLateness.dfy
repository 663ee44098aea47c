/** Late and out-of-order scripts: what still holds, and why order and promptness are needed. */
module RateLateness {
  import opened Wrappers
  import opened RateArithmetic
  import opened RateKeys
  import opened RateStore
  import opened RateLog
  import opened RateRuns
  import opened RateTheorems
  import opened RateTightness

  /** Scripts that run by the end of the next bucket, in any order: two limits at most in any window. */
  lemma LateWindowBound(cfg: RateLimitConfig, f: Product, calls: seq<Call>, id: Identity, a: nat)
    requires ValidConfig(cfg) && NotNegative(cfg, f) && WellTimed(cfg, calls)
    requires forall i :: 0 <= i < |calls| ==> Punctual(cfg, calls[i])
    ensures CountIn(StoreRun(cfg, f, calls).tally.log, id, a, a + Window(cfg, id) + 1) <= 2 * Cap(cfg, id)
  {
    hide StoreRun, NotNegative, Punctual, CountIn, Window, Cap, BucketNumber, Opens, WellTimed;
    var log, w := StoreRun(cfg, f, calls).tally.log, Window(cfg, id);
    var b := BucketNumber(a, w);
    StartOfBucket(a, w);
    NextOpens(b, w);
    LateBucketBound(cfg, f, calls, id, b);
    LateBucketBound(cfg, f, calls, id, b + 1);
    BucketIs(cfg, log, id, b, Opens(b, w));
    BucketIs(cfg, log, id, b + 1, Opens(b + 1, w));
    WithinTwo(log, id, Opens(b, w), a, w);
  }

  lemma WithinTwo(log: seq<Admission>, id: Identity, s: nat, a: nat, w: nat)
    requires s <= a < s + w
    ensures CountIn(log, id, a, a + w + 1) <= CountIn(log, id, s, s + w) + CountIn(log, id, s + w, s + w + w)
  {
    hide CountIn;
    CountSplit(log, id, a, s + w, a + w + 1);
    CountSplit(log, id, s, a, s + w);
    CountSplit(log, id, s + w, a + w + 1, s + w + w);
  }

  // ------------------------------------------------------------- order decides

  /** Two bursts of the whole limit, by scripts like `c` and then by scripts like `d`. */
  function TwoBursts(c: Call, d: Call, l: nat): seq<Call> {
    Repeat(c, l) + Repeat(d, l)
  }

  /** Prompt scripts of one identity, past the first bucket. */
  predicate SameCaller(cfg: RateLimitConfig, c: Call, d: Call)
    requires ValidConfig(cfg)
  {
    && c.id == d.id && IsMethod(c.id.method_)
    && c.sampled >= Window(cfg, c.id) && d.sampled >= Window(cfg, c.id) && Prompt(cfg, c) && Prompt(cfg, d)
  }

  lemma TwoBurstsArePrompt(cfg: RateLimitConfig, c: Call, d: Call, l: nat)
    requires ValidConfig(cfg) && SameCaller(cfg, c, d)
    ensures AllPrompt(cfg, TwoBursts(c, d, l))
  {
    hide Window, Prompt;
    RepeatIs(c, l);
    RepeatIs(d, l);
  }

  lemma TwoBurstsInOrder(cfg: RateLimitConfig, c: Call, d: Call, l: nat)
    requires ValidConfig(cfg) && c.id == d.id
    requires BucketNumber(c.sampled, Window(cfg, c.id)) <= BucketNumber(d.sampled, Window(cfg, c.id))
    ensures InBucketOrder(cfg, TwoBursts(c, d, l), c.id)
  {
    hide Window, BucketNumber;
    RepeatIs(c, l);
    RepeatIs(d, l);
  }

  /** Admissions of a later bucket weigh nothing. */
  lemma EstimateOfLater(c: Call, d: Call, l: nat, w: nat)
    requires w > 0 && c.id == d.id && BucketNumber(d.sampled, w) < BucketNumber(c.sampled, w)
    ensures LogEstimate(Entries(c, l), d.id, d.sampled, w) == 0 && d.sampled < c.sampled
  {
    hide CeilDiv, CountIn, BucketNumber, Opens, BucketStart, Entries;
    StartOfBucket(c.sampled, w);
    StartOfBucket(d.sampled, w);
    OpensInOrder(BucketNumber(d.sampled, w), BucketNumber(c.sampled, w), w);
    var s := BucketStart(d.sampled, w);
    assert [] + Entries(c, l) == Entries(c, l);
    CountEntries([], c, l, d.id, s, s + w);
    if s >= w {
      CountEntries([], c, l, d.id, s - w, s);
    }
    NoEntries(d.id);
    NothingWeighsNothing(d.sampled, w);
  }

  lemma NothingWeighsNothing(t: nat, w: nat)
    requires w > 0
    ensures t % w < w && 0 * (w - t % w) == 0 && CeilDiv(0, w) == 0
  {
    CeilDivLeast(0, w, 0);
  }

  /** When the second burst comes from an earlier bucket, twice the limit is admitted within one window. */
  lemma OutOfOrderReachesTwoLimits(cfg: RateLimitConfig, c: Call, d: Call)
    requires ValidConfig(cfg) && SameCaller(cfg, c, d) && Limit(cfg, c.id) >= 1
    requires BucketNumber(d.sampled, Window(cfg, c.id)) < BucketNumber(c.sampled, Window(cfg, c.id))
    requires c.sampled <= d.sampled + Window(cfg, c.id)
    ensures
      var l, w := Limit(cfg, c.id), Window(cfg, c.id);
      var calls := TwoBursts(c, d, l);
      && AllPrompt(cfg, calls)
      && CountIn(StoreRun(cfg, ExactProduct, calls).tally.log, c.id, d.sampled, d.sampled + w + 1) == 2 * l
  {
    hide StoreRun, LogRun, ExactProduct, Window, CountIn, LogEstimate, BucketNumber, Prompt, Entries, Repeat;
    var l, w := Limit(cfg, c.id), Window(cfg, c.id);
    TwoBurstsArePrompt(cfg, c, d, l);
    CountersRefineLog(cfg, ExactProduct, TwoBursts(c, d, l));
    EmptyRun(cfg, c.id);
    EstimateOfNothing(c.id, c.sampled, w);
    BurstAdmitted(cfg, [], c, l);
    assert [] + Repeat(c, l) == Repeat(c, l) && [] + Entries(c, l) == Entries(c, l);
    EstimateOfLater(c, d, l, w);
    BurstAdmitted(cfg, Repeat(c, l), d, l);
    CountEntries([], c, l, c.id, d.sampled, d.sampled + w + 1);
    CountEntries(Entries(c, l), d, l, c.id, d.sampled, d.sampled + w + 1);
  }

  /** Admissions in the closed interval of one window that begins at `a`. */
  function InWindow(cfg: RateLimitConfig, log: seq<Admission>, id: Identity, a: nat): nat
    requires ValidConfig(cfg)
  {
    CountIn(log, id, a, a + Window(cfg, id) + 1)
  }

  ghost predicate KeepsWindowBound(cfg: RateLimitConfig, log: seq<Admission>, id: Identity)
    requires ValidConfig(cfg) && Limit(cfg, id) >= 1
  {
    forall a: nat :: InWindow(cfg, log, id, a) <= 2 * Limit(cfg, id) - CeilDiv(Limit(cfg, id), Window(cfg, id))
  }

  /** Bucket order is exactly what the window bound needs: of two bursts within a window of each other, the bound
      survives if and only if the second does not come from an earlier bucket. */
  lemma BurstsKeepBoundIff(cfg: RateLimitConfig, c: Call, d: Call)
    requires ValidConfig(cfg) && SameCaller(cfg, c, d) && Limit(cfg, c.id) >= 1
    requires c.sampled <= d.sampled + Window(cfg, c.id)
    ensures
      var w := Window(cfg, c.id);
      var calls := TwoBursts(c, d, Limit(cfg, c.id));
      && AllPrompt(cfg, calls)
      && (KeepsWindowBound(cfg, StoreRun(cfg, ExactProduct, calls).tally.log, c.id) <==>
            BucketNumber(c.sampled, w) <= BucketNumber(d.sampled, w))
  {
    hide StoreRun, ExactProduct, Window, CountIn, BucketNumber, Prompt, Repeat, InBucketOrder, CeilDiv, Faithful;
    hide LongRun, Shares;
    var l, w := Limit(cfg, c.id), Window(cfg, c.id);
    var calls := TwoBursts(c, d, l);
    TwoBurstsArePrompt(cfg, c, d, l);
    CeilDivPositive(l, w);
    if BucketNumber(c.sampled, w) <= BucketNumber(d.sampled, w) {
      TwoBurstsInOrder(cfg, c, d, l);
      ExactIsFaithful(cfg);
      var log := StoreRun(cfg, ExactProduct, calls).tally.log;
      forall a: nat ensures InWindow(cfg, log, c.id, a) <= 2 * l - CeilDiv(l, w) {
        RunBounds(cfg, ExactProduct, calls, c.id, a, 0, 1);
      }
    } else {
      OutOfOrderReachesTwoLimits(cfg, c, d);
      assert InWindow(cfg, StoreRun(cfg, ExactProduct, calls).tally.log, c.id, d.sampled) == 2 * l;
    }
  }

  // -------------------------------------------------- a script past its bucket's end

  /** What makes a late script `c` tell the difference: one admission at the start of the bucket before, then
      the rest of the limit used up at `c`'s own time. */
  function Prelude(cfg: RateLimitConfig, c: Call): seq<Call>
    requires ValidConfig(cfg) && c.sampled >= 2 * Window(cfg, c.id) && Limit(cfg, c.id) >= 1
  {
    [First(c, Window(cfg, c.id))] + Repeat(Call(c.id, c.sampled, c.sampled), Limit(cfg, c.id) - 1)
  }

  function First(c: Call, w: nat): Call
    requires w > 0 && c.sampled >= 2 * w
  {
    StartsApart(2 * w, c.sampled, w);
    Call(c.id, BucketStart(c.sampled, w) - w, BucketStart(c.sampled, w) - w)
  }

  lemma FirstStart(c: Call, w: nat)
    requires w > 0 && c.sampled >= 2 * w
    ensures
      var s, t := BucketStart(c.sampled, w), First(c, w).sampled;
      && t == s - w && s >= 2 * w && BucketStart(t, w) == t
      && BucketNumber(c.sampled, w) >= 1 && BucketNumber(t, w) == BucketNumber(c.sampled, w) - 1
  {
    MultipleHasNoRest(2 * w, 2, w);
    StartsApart(2 * w, c.sampled, w);
    StartOfBucket(c.sampled, w);
    MultipleHasNoRest(BucketStart(c.sampled, w) - w, BucketNumber(c.sampled, w) - 1, w);
  }

  lemma PreludeIsPrompt(cfg: RateLimitConfig, c: Call, n: nat)
    requires ValidConfig(cfg) && c.sampled >= 2 * Window(cfg, c.id) && IsMethod(c.id.method_)
    ensures AllPrompt(cfg, [First(c, Window(cfg, c.id))] + Repeat(Call(c.id, c.sampled, c.sampled), n))
  {
    hide Window, BucketNumber, First;
    FirstStart(c, Window(cfg, c.id));
    FirstIs(c, Window(cfg, c.id));
    RepeatIs(Call(c.id, c.sampled, c.sampled), n);
  }

  lemma FirstIs(c: Call, w: nat)
    requires w > 0 && c.sampled >= 2 * w
    ensures First(c, w).id == c.id && First(c, w).executed == First(c, w).sampled
  {}

  /** A script writes no key but its own bucket's. */
  lemma ScriptWritesOwnKey(c: Counters, cfg: RateLimitConfig, f: Product, id: Identity, sampled: nat, now: nat,
        key: string)
    requires ValidConfig(cfg) && sampled >= Window(cfg, id) && key in c
      && key != Key(id, BucketNumber(sampled, Window(cfg, id)))
    ensures
      var c' := Check(c, cfg, f, id, sampled, now).counters;
      key in c' && c'[key] == c[key]
  {
    hide Key, Window, BucketNumber;
  }

  lemma RunAppendOne(cfg: RateLimitConfig, f: Product, calls: seq<Call>, c: Call)
    requires ValidConfig(cfg) && WellTimed(cfg, calls) && IsMethod(c.id.method_) && c.sampled >= Window(cfg, c.id)
    ensures WellTimed(cfg, calls + [c])
    ensures
      var r, v := StoreRun(cfg, f, calls), Check(StoreRun(cfg, f, calls).counters, cfg, f, c.id, c.sampled, c.executed);
      StoreRun(cfg, f, calls + [c]) == Served(v.counters, Record(r.tally, c, v.allowed))
    ensures
      var r := LogRun(cfg, f, calls);
      LogRun(cfg, f, calls + [c]) == Record(r, c, Admits(cfg, f, r.log, c.id, c.sampled))
  {
    hide Check, Admits, Window;
    assert (calls + [c])[..|calls|] == calls;
    assert WellTimed(cfg, calls + [c]);
  }

  lemma EmptyStoreRun(cfg: RateLimitConfig, f: Product)
    requires ValidConfig(cfg)
    ensures StoreRun(cfg, f, []) == Served(map[], Tally([], []))
  {}

  /** The first admission's key keeps the expiry it got. */
  lemma FirstKey(cfg: RateLimitConfig, c: Call)
    requires ValidConfig(cfg) && c.sampled >= 2 * Window(cfg, c.id) && IsMethod(c.id.method_) && Limit(cfg, c.id) >= 1
    ensures
      var w := Window(cfg, c.id);
      var first := First(c, w);
      && AllPrompt(cfg, [first]) && LogRun(cfg, ExactProduct, [first]).log == [Admission(c.id, first.sampled)]
      && StoreRun(cfg, ExactProduct, [first]).counters ==
           map[Key(c.id, BucketNumber(c.sampled, w) - 1) := Counter(1, Some(first.sampled + 2 * w))]
  {
    hide Window, Key, ExactProduct, LogEstimate, BucketNumber, First, Check, Admits, AllPrompt, LogRun, StoreRun;
    hide CountIn, BucketStart;
    var w := Window(cfg, c.id);
    FirstStart(c, w);
    FirstIs(c, w);
    var first := First(c, w);
    assert [first] + Repeat(Call(c.id, c.sampled, c.sampled), 0) == [first];
    PreludeIsPrompt(cfg, c, 0);
    ArePrompt(cfg, [first]);
    assert Prompt(cfg, [first][0]);
    ExactAdmits(cfg, [], c.id, first.sampled);
    EstimateOfNothing(c.id, first.sampled, w);
    NothingTracked(cfg);
    SameDecision(cfg, ExactProduct, map[], [], first);
    AdmissionWrites(cfg, ExactProduct, map[], [], first);
    NoneCurrent(c.id, first.sampled, w);
    EmptyStoreRun(cfg, ExactProduct);
    EmptyRun(cfg, c.id);
    assert [] + [first] == [first];
    RunAppendOne(cfg, ExactProduct, [], first);
    assert [] + [Admission(c.id, first.sampled)] == [Admission(c.id, first.sampled)];
  }

  lemma NoneCurrent(id: Identity, t: nat, w: nat)
    requires w > 0
    ensures Current([], id, t, w) == 0
  {}

  lemma {:induction false} FirstKeyStays(cfg: RateLimitConfig, c: Call, n: nat)
    requires ValidConfig(cfg) && c.sampled >= 2 * Window(cfg, c.id) && IsMethod(c.id.method_) && Limit(cfg, c.id) >= 1
    ensures
      var w := Window(cfg, c.id);
      var calls := [First(c, w)] + Repeat(Call(c.id, c.sampled, c.sampled), n);
      var key := Key(c.id, BucketNumber(c.sampled, w) - 1);
      && WellTimed(cfg, calls)
      && key in StoreRun(cfg, ExactProduct, calls).counters
      && StoreRun(cfg, ExactProduct, calls).counters[key] == Counter(1, Some(First(c, w).sampled + 2 * w))
  {
    hide Window, Key, ExactProduct, BucketNumber, First, Check, StoreRun, Limit;
    var w := Window(cfg, c.id);
    var b := BucketNumber(c.sampled, w);
    var filler := Call(c.id, c.sampled, c.sampled);
    PastFirstBucket(c.sampled, w);
    PreludeIsPrompt(cfg, c, n);
    ArePrompt(cfg, [First(c, w)] + Repeat(filler, n));
    if n == 0 {
      FirstKey(cfg, c);
      assert [First(c, w)] + Repeat(filler, 0) == [First(c, w)];
    } else {
      FirstKeyStays(cfg, c, n - 1);
      var before := [First(c, w)] + Repeat(filler, n - 1);
      assert [First(c, w)] + Repeat(filler, n) == before + [filler];
      RunAppendOne(cfg, ExactProduct, before, filler);
      if Key(c.id, b) == Key(c.id, b - 1) {
        KeysAreInjective(c.id, c.id, b, b - 1);
      }
      ScriptWritesOwnKey(StoreRun(cfg, ExactProduct, before).counters, cfg, ExactProduct, c.id, c.sampled, c.sampled,
        Key(c.id, b - 1));
    }
  }

  /** Before `c` the limit is used up: limit - 1 admissions in its bucket, and one before that still weighs one. */
  lemma PreludeFills(cfg: RateLimitConfig, c: Call)
    requires ValidConfig(cfg) && c.sampled >= 2 * Window(cfg, c.id) && IsMethod(c.id.method_) && Limit(cfg, c.id) >= 1
    ensures
      var log := LogRun(cfg, ExactProduct, Prelude(cfg, c)).log;
      && Current(log, c.id, c.sampled, Window(cfg, c.id)) == Limit(cfg, c.id) - 1
      && !Admits(cfg, ExactProduct, log, c.id, c.sampled)
  {
    hide Window, Limit, ExactProduct, First, LogRun, Admits, CountIn, CeilDiv, LogEstimate, BucketStart, Entries;
    hide Repeat;
    var w, l := Window(cfg, c.id), Limit(cfg, c.id);
    var first := First(c, w);
    var filler := Call(c.id, c.sampled, c.sampled);
    var one := [Admission(c.id, first.sampled)];
    FirstKey(cfg, c);
    FirstStart(c, w);
    OneWeighsOne(c, w);
    BurstAdmitted(cfg, [first], filler, l - 1);
    EstimateAfter(one, filler, l - 1, w);
    ExactAdmits(cfg, one + Entries(filler, l - 1), c.id, c.sampled);
    CountEntries(one, filler, l - 1, c.id, BucketStart(c.sampled, w), BucketStart(c.sampled, w) + w);
  }

  lemma OneWeighsOne(c: Call, w: nat)
    requires w > 0 && c.sampled >= 2 * w
    ensures
      var one := [Admission(c.id, First(c, w).sampled)];
      LogEstimate(one, c.id, c.sampled, w) == 1 && Current(one, c.id, c.sampled, w) == 0
  {
    hide BucketStart, CeilDiv, BucketNumber, First;
    FirstStart(c, w);
    var s, a := BucketStart(c.sampled, w), Admission(c.id, First(c, w).sampled);
    assert [a] == [] + [a];
    CountAppend([], a, c.id, s - w, s);
    CountAppend([], a, c.id, s, s + w);
    DivMod(c.sampled, w);
    CeilDivPositive(1 * (w - c.sampled % w), w);
  }

  /** The counters' answer to a `c` that comes after its bucket's end: the bucket before reads as empty. */
  lemma LateIsAdmitted(cfg: RateLimitConfig, c: Call)
    requires ValidConfig(cfg) && c.sampled >= 2 * Window(cfg, c.id) && c.executed >= c.sampled && !Prompt(cfg, c)
    requires IsMethod(c.id.method_) && Limit(cfg, c.id) >= 1 && WellTimed(cfg, Prelude(cfg, c))
    ensures Check(StoreRun(cfg, ExactProduct, Prelude(cfg, c)).counters, cfg, ExactProduct, c.id, c.sampled,
      c.executed).allowed
  {
    hide Window, Limit, Key, BucketNumber, First, StoreRun, LogRun, CountIn, AllPrompt, Tracks, Bucket, Current;
    var w := Window(cfg, c.id);
    var calls := Prelude(cfg, c);
    var r := StoreRun(cfg, ExactProduct, calls);
    FirstStart(c, w);
    FirstKeyStays(cfg, c, Limit(cfg, c.id) - 1);
    PreludeFills(cfg, c);
    PreludeIsPrompt(cfg, c, Limit(cfg, c.id) - 1);
    ArePrompt(cfg, calls);
    CountersRefineLog(cfg, ExactProduct, calls);
    PromptTracks(cfg, ExactProduct, calls);
    CurrentIsBucket(cfg, r.tally.log, c.id, c.sampled);
    ReadAtMost(cfg, r.counters, r.tally.log, c.id, BucketNumber(c.sampled, w), c.executed);
    assert Read(r.counters, Key(c.id, BucketNumber(c.sampled, w) - 1), c.executed) == 0;
    assert Ceil(ExactProduct(0, c.sampled % w, w)) == 0;
  }

  lemma PromptTracks(cfg: RateLimitConfig, f: Product, calls: seq<Call>)
    requires ValidConfig(cfg) && AllPrompt(cfg, calls)
    ensures
      var r := StoreRun(cfg, f, calls);
      Tracks(cfg, r.counters, r.tally.log)
  {
    hide Prompt, Punctual, Tracks, StoreRun;
    forall i | 0 <= i < |calls| ensures Punctual(cfg, calls[i]) {
      PromptIsPunctual(cfg, calls[i]);
    }
    CountersTrackLog(cfg, f, calls);
  }

  /** Running before the bucket ends is exactly what the agreement of counters and log needs, at every limit:
      with the limit used up, one admission of it made at the start of the bucket before, every script that
      runs later than its bucket's end is admitted by the counters and denied by the log. */
  lemma AgreesIffPrompt(cfg: RateLimitConfig, c: Call)
    requires ValidConfig(cfg) && c.sampled >= 2 * Window(cfg, c.id) && c.executed >= c.sampled
    requires IsMethod(c.id.method_) && Limit(cfg, c.id) >= 1
    ensures
      var calls := Prelude(cfg, c);
      && AllPrompt(cfg, calls) && WellTimed(cfg, calls + [c])
      && (StoreRun(cfg, ExactProduct, calls + [c]).tally == LogRun(cfg, ExactProduct, calls + [c]) <==> Prompt(cfg, c))
  {
    hide Window, Limit, StoreRun, LogRun, Check, Admits, AllPrompt, Prompt, First, Tracks;
    var calls := Prelude(cfg, c);
    PreludeIsPrompt(cfg, c, Limit(cfg, c.id) - 1);
    ArePrompt(cfg, calls);
    CountersRefineLog(cfg, ExactProduct, calls);
    RunAppendOne(cfg, ExactProduct, calls, c);
    var r := StoreRun(cfg, ExactProduct, calls);
    PreludeFills(cfg, c);
    if Prompt(cfg, c) {
      PromptTracks(cfg, ExactProduct, calls);
      SameDecision(cfg, ExactProduct, r.counters, r.tally.log, c);
    } else {
      LateIsAdmitted(cfg, c);
      RecordsDiffer(r.tally, c);
    }
  }

  lemma RecordsDiffer(t: Tally, c: Call)
    ensures Record(t, c, true) != Record(t, c, false)
  {
    assert Record(t, c, true).decisions[|t.decisions|] != Record(t, c, false).decisions[|t.decisions|];
  }

  // -------------------------------------------------- a script past the next bucket's end

  /** A call at the very start of the bucket of `c`. */
  function AtStart(c: Call, w: nat): Call
    requires w > 0
  {
    Call(c.id, BucketStart(c.sampled, w), BucketStart(c.sampled, w))
  }

  lemma StartCall(cfg: RateLimitConfig, c: Call)
    requires ValidConfig(cfg) && c.sampled >= Window(cfg, c.id)
    ensures
      var w := Window(cfg, c.id);
      var x := AtStart(c, w);
      && x.sampled >= w && Prompt(cfg, x) && BucketStart(x.sampled, w) == x.sampled
      && BucketNumber(x.sampled, w) == BucketNumber(c.sampled, w) >= 1
  {
    hide Window;
    var w := Window(cfg, c.id);
    StartIsMultiple(c.sampled, w);
    PastFirstBucket(c.sampled, w);
    StartInside(BucketStart(c.sampled, w), BucketStart(c.sampled, w), w);
  }

  lemma StartBurstIsPrompt(cfg: RateLimitConfig, c: Call, n: nat)
    requires ValidConfig(cfg) && c.sampled >= Window(cfg, c.id) && IsMethod(c.id.method_)
    ensures AllPrompt(cfg, Repeat(AtStart(c, Window(cfg, c.id)), n))
  {
    hide Window, Prompt, BucketNumber, BucketStart;
    StartCall(cfg, c);
    RepeatIs(AtStart(c, Window(cfg, c.id)), n);
  }

  /** A burst at the start of a bucket, up to the limit, is admitted whole. */
  lemma StartBurstAdmitted(cfg: RateLimitConfig, c: Call, n: nat)
    requires ValidConfig(cfg) && c.sampled >= Window(cfg, c.id) && IsMethod(c.id.method_) && n <= Limit(cfg, c.id)
    ensures
      var w := Window(cfg, c.id);
      var x := AtStart(c, w);
      var log := LogRun(cfg, ExactProduct, Repeat(x, n)).log;
      && log == Entries(x, n) && Current(log, c.id, x.sampled, w) == n
      && (n < Limit(cfg, c.id) ==> Admits(cfg, ExactProduct, log, c.id, x.sampled))
  {
    hide Window, ExactProduct, LogRun, CountIn, LogEstimate, Entries, Repeat, BucketStart, Admits, BucketNumber, Prompt;
    var w := Window(cfg, c.id);
    var x := AtStart(c, w);
    EmptyRun(cfg, c.id);
    EstimateOfNothing(c.id, x.sampled, w);
    BurstAdmitted(cfg, [], x, n);
    assert [] + Repeat(x, n) == Repeat(x, n) && [] + Entries(x, n) == Entries(x, n);
    EstimateAfter([], x, n, w);
    ExactAdmits(cfg, Entries(x, n), c.id, x.sampled);
    CountEntries([], x, n, c.id, BucketStart(x.sampled, w), BucketStart(x.sampled, w) + w);
    NoEntries(c.id);
  }

  /** What such a burst leaves in the store: its own key, with the expiry of the first admission. */
  lemma {:induction false} StartBurstKey(cfg: RateLimitConfig, c: Call, n: nat)
    requires ValidConfig(cfg) && c.sampled >= Window(cfg, c.id) && IsMethod(c.id.method_) && 1 <= n <= Limit(cfg, c.id)
    ensures
      var w := Window(cfg, c.id);
      var calls := Repeat(AtStart(c, w), n);
      && WellTimed(cfg, calls)
      && StoreRun(cfg, ExactProduct, calls).counters ==
         map[Key(c.id, BucketNumber(c.sampled, w)) := Counter(n, Some(BucketStart(c.sampled, w) + 2 * w))]
  {
    hide Window, ExactProduct, LogRun, StoreRun, CountIn, Entries, BucketStart, Admits, BucketNumber, Prompt, Check;
    hide Key, Tracks, Current;
    var w := Window(cfg, c.id);
    var x := AtStart(c, w);
    var before := Repeat(x, n - 1);
    StartCall(cfg, c);
    StartBurstIsPrompt(cfg, c, n);
    StartBurstIsPrompt(cfg, c, n - 1);
    StartBurstAdmitted(cfg, c, n - 1);
    CountersRefineLog(cfg, ExactProduct, before);
    PromptTracks(cfg, ExactProduct, before);
    PromptIsPunctual(cfg, x);
    var r := StoreRun(cfg, ExactProduct, before);
    SameDecision(cfg, ExactProduct, r.counters, r.tally.log, x);
    AdmissionWrites(cfg, ExactProduct, r.counters, r.tally.log, x);
    RunAppendOne(cfg, ExactProduct, before, x);
    if n == 1 {
      EmptyStoreRun(cfg, ExactProduct);
    } else {
      StartBurstKey(cfg, c, n - 1);
    }
  }

  /** Past the end of the next bucket, a script finds neither its own key nor the one before. */
  lemma TooLateIsAdmitted(cfg: RateLimitConfig, c: Call)
    requires ValidConfig(cfg) && c.sampled >= Window(cfg, c.id) && IsMethod(c.id.method_) && Limit(cfg, c.id) >= 1
    requires c.executed > BucketStart(c.sampled, Window(cfg, c.id)) + 2 * Window(cfg, c.id)
    requires WellTimed(cfg, Repeat(AtStart(c, Window(cfg, c.id)), Limit(cfg, c.id)))
    ensures
      var r := StoreRun(cfg, ExactProduct, Repeat(AtStart(c, Window(cfg, c.id)), Limit(cfg, c.id)));
      Check(r.counters, cfg, ExactProduct, c.id, c.sampled, c.executed).allowed
  {
    hide Window, Limit, StoreRun, Key, BucketNumber, BucketStart;
    var w := Window(cfg, c.id);
    var b := BucketNumber(c.sampled, w);
    PastFirstBucket(c.sampled, w);
    StartBurstKey(cfg, c, Limit(cfg, c.id));
    if Key(c.id, b) == Key(c.id, b - 1) {
      KeysAreInjective(c.id, c.id, b, b - 1);
    }
    assert Ceil(ExactProduct(0, c.sampled % w, w)) == 0;
  }

  /** Running by the end of the next bucket is exactly what the bucket bound needs: after a burst of the whole
      limit at the bucket's start, one more script leaves the bucket within the limit if and only if it runs by
      that time. */
  lemma BucketBoundIffPunctual(cfg: RateLimitConfig, c: Call)
    requires ValidConfig(cfg) && c.sampled >= Window(cfg, c.id) && c.executed >= c.sampled
    requires IsMethod(c.id.method_) && Limit(cfg, c.id) >= 1
    ensures
      var w := Window(cfg, c.id);
      var b, calls := BucketNumber(c.sampled, w), Repeat(AtStart(c, w), Limit(cfg, c.id)) + [c];
      && WellTimed(cfg, calls)
      && (Bucket(cfg, StoreRun(cfg, ExactProduct, calls).tally.log, c.id, b) <= Limit(cfg, c.id) <==> Punctual(cfg, c))
  {
    hide Window, StoreRun, LogRun, BucketNumber, Bucket, Check, Prompt, NotNegative, Repeat, Current, Faithful, Admits;
    hide ExactProduct;
    var w, l := Window(cfg, c.id), Limit(cfg, c.id);
    var before := Repeat(AtStart(c, w), l);
    StartCall(cfg, c);
    StartBurstIsPrompt(cfg, c, l);
    RunAppendOne(cfg, ExactProduct, before, c);
    if Punctual(cfg, c) {
      ExactIsFaithful(cfg);
      FaithfulIsNotNegative(cfg, ExactProduct);
      BurstIsPunctual(cfg, before, c);
      LateBucketBound(cfg, ExactProduct, before + [c], c.id, BucketNumber(c.sampled, w));
    } else {
      StartBurstAdmitted(cfg, c, l);
      CountersRefineLog(cfg, ExactProduct, before);
      var log := StoreRun(cfg, ExactProduct, before).tally.log;
      CurrentIsBucket(cfg, log, c.id, AtStart(c, w).sampled);
      BucketAppend(cfg, log, Admission(c.id, c.sampled), c.id, BucketNumber(c.sampled, w));
      TooLateIsAdmitted(cfg, c);
    }
  }

  lemma BurstIsPunctual(cfg: RateLimitConfig, before: seq<Call>, c: Call)
    requires ValidConfig(cfg) && AllPrompt(cfg, before) && Punctual(cfg, c)
    ensures forall i :: 0 <= i < |before + [c]| ==> Punctual(cfg, (before + [c])[i])
  {
    hide Prompt, Punctual;
    forall i | 0 <= i < |before| ensures Punctual(cfg, before[i]) {
      PromptIsPunctual(cfg, before[i]);
    }
  }

  /** In particular a script that runs at most one window after its clock reading is in time. */
  lemma WindowLateIsPunctual(cfg: RateLimitConfig, c: Call)
    requires ValidConfig(cfg) && c.sampled <= c.executed <= c.sampled + Window(cfg, c.id)
    ensures Punctual(cfg, c)
  {}
}

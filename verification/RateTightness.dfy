/** Runs that reach the limiter's bounds: bursts at the last millisecond of every bucket. */
module RateTightness {
  import opened Text
  import opened RateArithmetic
  import opened RateKeys
  import opened RateStore
  import opened RateLog
  import opened RateRuns
  import opened RateTheorems

  function Repeat(c: Call, n: nat): seq<Call> {
    if n == 0 then [] else Repeat(c, n - 1) + [c]
  }

  function Entries(c: Call, n: nat): seq<Admission> {
    if n == 0 then [] else Entries(c, n - 1) + [Admission(c.id, c.sampled)]
  }

  lemma {:induction false} CountEntries(log: seq<Admission>, c: Call, n: nat, id: Identity, lo: nat, hi: nat)
    ensures CountIn(log + Entries(c, n), id, lo, hi) == CountIn(log, id, lo, hi) + if c.id == id
      && lo <= c.sampled < hi then n else 0
  {
    hide CountIn;
    if n == 0 {
      assert log + [] == log;
    } else {
      Associates(log, Entries(c, n - 1), [Admission(c.id, c.sampled)]);
      CountEntries(log, c, n - 1, id, lo, hi);
      CountAppend(log + Entries(c, n - 1), Admission(c.id, c.sampled), id, lo, hi);
    }
  }

  /** Each admission raises the estimate of its own time by one. */
  lemma EstimateAfter(log: seq<Admission>, c: Call, n: nat, w: nat)
    requires w > 0
    ensures LogEstimate(log + Entries(c, n), c.id, c.sampled, w) == LogEstimate(log, c.id, c.sampled, w) + n
  {
    hide CountIn, CeilDiv, Entries;
    var s := BucketStart(c.sampled, w);
    CountEntries(log, c, n, c.id, s, s + w);
    if s >= w {
      CountEntries(log, c, n, c.id, s - w, s);
    }
  }

  /** A burst that fits under the limit is admitted whole. */
  lemma {:induction false} BurstAdmitted(cfg: RateLimitConfig, calls: seq<Call>, c: Call, n: nat)
    requires ValidConfig(cfg)
    requires LogEstimate(LogRun(cfg, ExactProduct, calls).log, c.id, c.sampled, Window(cfg, c.id)) + n <=
      Limit(cfg, c.id)
    ensures LogRun(cfg, ExactProduct, calls + Repeat(c, n)).log == LogRun(cfg, ExactProduct, calls).log + Entries(c, n)
  {
    hide LogEstimate, Window, Limit, Admits, ExactProduct;
    var log := LogRun(cfg, ExactProduct, calls).log;
    if n == 0 {
      assert calls + [] == calls && log + [] == log;
    } else {
      BurstAdmitted(cfg, calls, c, n - 1);
      EstimateAfter(log, c, n - 1, Window(cfg, c.id));
      ExactAdmits(cfg, log + Entries(c, n - 1), c.id, c.sampled);
      var more := calls + Repeat(c, n);
      assert more[..|more| - 1] == calls + Repeat(c, n - 1);
      assert log + Entries(c, n - 1) + [Admission(c.id, c.sampled)] == log + Entries(c, n);
    }
  }

  function LastCall(id: Identity, w: nat, j: nat): Call
    requires w > 0
  {
    Call(id, Opens(j, w) + w - 1, Opens(j, w) + w - 1)
  }

  /** Bursts at the last millisecond of buckets 1 to k. */
  function Bursts(id: Identity, l: nat, w: nat, k: nat): seq<Call>
    requires w > 0
  {
    if k == 0 then [] else Bursts(id, l, w, k - 1) + Repeat(LastCall(id, w, k), Share(l, w, k))
  }

  lemma NextOpens(j: nat, w: nat)
    ensures Opens(j + 1, w) == Opens(j, w) + w
    ensures Opens(0, w) == 0
  {
    Distribute(j, 1, w);
  }

  lemma {:induction false} OpensInOrder(i: nat, j: nat, w: nat)
    requires i < j
    ensures Opens(i, w) + w <= Opens(j, w)
  {
    NextOpens(j - 1, w);
    if i < j - 1 {
      OpensInOrder(i, j - 1, w);
    }
  }

  lemma {:induction false} RepeatIs(c: Call, n: nat)
    ensures |Repeat(c, n)| == n && forall i :: 0 <= i < n ==> Repeat(c, n)[i] == c
  {
    if n > 0 {
      RepeatIs(c, n - 1);
    }
  }

  lemma LastCallIsTimely(cfg: RateLimitConfig, id: Identity, j: nat)
    requires ValidConfig(cfg) && j >= 1
    ensures
      var w := Window(cfg, id);
      var c := LastCall(id, w, j);
      c.sampled >= w && Prompt(cfg, c) && BucketNumber(c.sampled, w) == j && c.sampled % w == w - 1
  {
    hide Window;
    var w := Window(cfg, id);
    MultipleHasNoRest(Opens(j, w), j, w);
    StartInside(Opens(j, w) + w - 1, Opens(j, w), w);
    OpensInOrder(0, j, w);
  }

  lemma {:induction false} BurstsAreTimely(cfg: RateLimitConfig, id: Identity, l: nat, k: nat)
    requires ValidConfig(cfg) && IsMethod(id.method_)
    ensures
      var w := Window(cfg, id);
      var calls := Bursts(id, l, w, k);
      && Timely(cfg, calls)
      && forall i :: 0 <= i < |calls| ==> calls[i].sampled < Opens(k + 1, w) && calls[i].id == id
  {
    hide Window, Share, Opens, Prompt;
    if k > 0 {
      var w := Window(cfg, id);
      BurstsAreTimely(cfg, id, l, k - 1);
      LastCallIsTimely(cfg, id, k);
      RepeatIs(LastCall(id, w, k), Share(l, w, k));
      NextOpens(k, w);
    }
  }

  lemma {:induction false} EntriesIs(c: Call, n: nat)
    ensures |Entries(c, n)| == n && forall i :: 0 <= i < n ==> Entries(c, n)[i] == Admission(c.id, c.sampled)
  {
    if n > 0 {
      EntriesIs(c, n - 1);
    }
  }

  /** The estimate at the last millisecond of bucket k, when the bucket is still empty. */
  lemma EstimateAtLast(cfg: RateLimitConfig, log: seq<Admission>, id: Identity, k: nat)
    requires ValidConfig(cfg) && k >= 1 && Bucket(cfg, log, id, k) == 0
    ensures LogEstimate(log, id, LastCall(id, Window(cfg, id), k).sampled, Window(cfg, id)) ==
      CeilDiv(Bucket(cfg, log, id, k - 1), Window(cfg, id))
  {
    hide Window, CountIn, CeilDiv, Bucket, Current, Previous, Opens;
    var w := Window(cfg, id);
    LastCallIsTimely(cfg, id, k);
    CurrentIsBucket(cfg, log, id, LastCall(id, w, k).sampled);
  }

  lemma BucketEmptyBeyond(cfg: RateLimitConfig, log: seq<Admission>, id: Identity, k: nat)
    requires ValidConfig(cfg) && forall i :: 0 <= i < |log| ==> log[i].at < Opens(k, Window(cfg, id))
    ensures Bucket(cfg, log, id, k) == 0
  {
    hide Window, Opens;
    CountNone(log, id, Opens(k, Window(cfg, id)), Opens(k, Window(cfg, id)) + Window(cfg, id));
  }

  /** Every burst is admitted whole, and the admissions of `id` in buckets 1 to k add up to its shares. */
  lemma {:induction false} BurstsAdmitted(cfg: RateLimitConfig, id: Identity, k: nat)
    requires ValidConfig(cfg) && Limit(cfg, id) >= 1
    ensures
      var l, w := Limit(cfg, id), Window(cfg, id);
      var log := LogRun(cfg, ExactProduct, Bursts(id, l, w, k)).log;
      && (forall i :: 0 <= i < |log| ==> log[i].at < Opens(k + 1, w))
      && Bucket(cfg, log, id, k) == Share(l, w, k)
      && (k >= 1 ==> CountIn(log, id, LastCall(id, w, k).sampled, LastCall(id, w, k).sampled + 1) == Share(l, w, k))
      && CountIn(log, id, w, Opens(k + 1, w)) == Shares(l, w, k)
  {
    hide LogRun, Window, CountIn, CeilDiv, Bucket, Opens, LogEstimate, ExactProduct, Repeat;
    var l, w := Limit(cfg, id), Window(cfg, id);
    if k == 0 {
      EmptyRun(cfg, id);
      NextOpens(0, w);
    } else {
      BurstsAdmitted(cfg, id, k - 1);
      var log := LogRun(cfg, ExactProduct, Bursts(id, l, w, k - 1)).log;
      var c := LastCall(id, w, k);
      BucketEmptyBeyond(cfg, log, id, k);
      EstimateAtLast(cfg, log, id, k);
      BurstAdmitted(cfg, Bursts(id, l, w, k - 1), c, Share(l, w, k));
      BurstCounts(cfg, log, id, k, Share(l, w, k));
      EntriesIs(c, Share(l, w, k));
      NextOpens(k, w);
    }
  }

  lemma EmptyRun(cfg: RateLimitConfig, id: Identity)
    requires ValidConfig(cfg)
    ensures LogRun(cfg, ExactProduct, []).log == [] && Bucket(cfg, [], id, 0) == 0
    ensures forall lo, hi :: CountIn([], id, lo, hi) == 0
  {}

  lemma BurstCounts(cfg: RateLimitConfig, log: seq<Admission>, id: Identity, k: nat, n: nat)
    requires ValidConfig(cfg) && k >= 1 && forall i :: 0 <= i < |log| ==> log[i].at < Opens(k, Window(cfg, id))
    ensures
      var w := Window(cfg, id);
      var c := LastCall(id, w, k);
      var log' := log + Entries(c, n);
      && Bucket(cfg, log', id, k) == n
      && CountIn(log', id, c.sampled, c.sampled + 1) == n
      && CountIn(log', id, w, Opens(k + 1, w)) == CountIn(log, id, w, Opens(k, w)) + n
  {
    hide CountIn, Opens, Window, Entries;
    var w := Window(cfg, id);
    var c := LastCall(id, w, k);
    OpensInOrder(0, k, w);
    NextOpens(k, w);
    NextOpens(0, w);
    CountNone(log, id, Opens(k, w), Opens(k, w) + w);
    CountNone(log, id, c.sampled, c.sampled + 1);
    CountSplit(log, id, w, Opens(k, w), Opens(k, w) + w);
    CountEntries(log, c, n, id, Opens(k, w), Opens(k, w) + w);
    CountEntries(log, c, n, id, c.sampled, c.sampled + 1);
    CountEntries(log, c, n, id, w, Opens(k, w) + w);
  }

  lemma BurstRun(cfg: RateLimitConfig, id: Identity, k: nat)
    requires ValidConfig(cfg) && IsMethod(id.method_) && Limit(cfg, id) >= 1
    ensures
      var calls := Bursts(id, Limit(cfg, id), Window(cfg, id), k);
      && Timely(cfg, calls) && InBucketOrder(cfg, calls, id)
      && StoreRun(cfg, ExactProduct, calls).tally == LogRun(cfg, ExactProduct, calls)
  {
    hide StoreRun, LogRun, ExactProduct, Window, Prompt, Bursts, InBucketOrder;
    var calls := Bursts(id, Limit(cfg, id), Window(cfg, id), k);
    BurstsAreTimely(cfg, id, Limit(cfg, id), k);
    TimelyIsInOrder(cfg, calls, id);
    CountersRefineLog(cfg, ExactProduct, calls);
  }

  /** The window bound is reached, for every limit and window, and by scripts in the order of their times. */
  lemma WindowBoundReached(cfg: RateLimitConfig, id: Identity)
    requires ValidConfig(cfg) && IsMethod(id.method_) && Limit(cfg, id) >= 1
    ensures
      var l, w := Limit(cfg, id), Window(cfg, id);
      var calls := Bursts(id, l, w, 2);
      var a := Opens(2, w) - 1;
      && Timely(cfg, calls) && InBucketOrder(cfg, calls, id)
      && CountIn(StoreRun(cfg, ExactProduct, calls).tally.log, id, a, a + w + 1) == 2 * l - CeilDiv(l, w)
  {
    hide StoreRun, LogRun, ExactProduct, Window, Timely, InBucketOrder, Bursts, CountIn, Opens, CeilDiv;
    var l, w := Limit(cfg, id), Window(cfg, id);
    var log := LogRun(cfg, ExactProduct, Bursts(id, l, w, 2)).log;
    BurstRun(cfg, id, 2);
    BurstsAdmitted(cfg, id, 2);
    NextOpens(1, w);
    BurstsGrow(cfg, id);
    FirstShares(l, w);
    BucketIs(cfg, log, id, 2, Opens(2, w));
    CountSplit(log, id, Opens(2, w) - 1, Opens(2, w), Opens(2, w) + w);
  }

  /** The second burst leaves the count of the first one's millisecond alone. */
  lemma BurstsGrow(cfg: RateLimitConfig, id: Identity)
    requires ValidConfig(cfg) && Limit(cfg, id) >= 1
    ensures
      var l, w := Limit(cfg, id), Window(cfg, id);
      var log := LogRun(cfg, ExactProduct, Bursts(id, l, w, 2)).log;
      var c := LastCall(id, w, 1);
      c.sampled == Opens(2, w) - 1 && CountIn(log, id, c.sampled, c.sampled + 1) == Share(l, w, 1)
  {
    hide LogRun, Window, CountIn, Opens, ExactProduct, Repeat, LogEstimate, Share, Entries, CeilDiv;
    var l, w := Limit(cfg, id), Window(cfg, id);
    BurstsAdmitted(cfg, id, 1);
    var log := LogRun(cfg, ExactProduct, Bursts(id, l, w, 1)).log;
    var c, c1 := LastCall(id, w, 2), LastCall(id, w, 1);
    NextOpens(1, w);
    OpensInOrder(1, 2, w);
    SecondBurst(cfg, id);
    CountEntries(log, c, Share(l, w, 2), id, c1.sampled, c1.sampled + 1);
  }

  lemma SecondBurst(cfg: RateLimitConfig, id: Identity)
    requires ValidConfig(cfg) && Limit(cfg, id) >= 1
    ensures
      var l, w := Limit(cfg, id), Window(cfg, id);
      LogRun(cfg, ExactProduct, Bursts(id, l, w, 2)).log ==
      LogRun(cfg, ExactProduct, Bursts(id, l, w, 1)).log + Entries(LastCall(id, w, 2), Share(l, w, 2))
  {
    hide LogRun, Window, CountIn, Opens, ExactProduct, Repeat, LogEstimate, Entries, CeilDiv, Bucket;
    var l, w := Limit(cfg, id), Window(cfg, id);
    BurstsAdmitted(cfg, id, 1);
    var log := LogRun(cfg, ExactProduct, Bursts(id, l, w, 1)).log;
    BucketEmptyBeyond(cfg, log, id, 2);
    EstimateAtLast(cfg, log, id, 2);
    BurstAdmitted(cfg, Bursts(id, l, w, 1), LastCall(id, w, 2), Share(l, w, 2));
  }

  /** The long-run bound is reached too, for every limit, window and number of buckets; when the limit fits
      in the window that is k * (limit - 1) + 1, or every other bucket. */
  lemma LongRunReached(cfg: RateLimitConfig, id: Identity, k: nat)
    requires ValidConfig(cfg) && IsMethod(id.method_) && Limit(cfg, id) >= 1
    ensures
      var l, w := Limit(cfg, id), Window(cfg, id);
      var calls := Bursts(id, l, w, k);
      && Timely(cfg, calls) && InBucketOrder(cfg, calls, id)
      && CountIn(StoreRun(cfg, ExactProduct, calls).tally.log, id, w, w + k * w) == Shares(l, w, k)
      && (l <= w && k >= 1 ==> Shares(l, w, k) == LongRun(l, k))
  {
    hide StoreRun, LogRun, ExactProduct, Window, Timely, InBucketOrder, Bursts, CountIn, Shares, LongRun, Opens;
    var l, w := Limit(cfg, id), Window(cfg, id);
    BurstRun(cfg, id, k);
    BurstsAdmitted(cfg, id, k);
    OpensAfter(k, w);
    if l <= w && k >= 1 {
      SharesAre(l, w, k);
    }
  }

  lemma OpensAfter(k: nat, w: nat)
    ensures Opens(k + 1, w) == w + k * w
  {
    Distribute(k, 1, w);
  }

  lemma {:induction false} SharesAre(l: nat, w: nat, k: nat)
    requires 1 <= l <= w && k >= 1
    ensures Share(l, w, k) == if l == 1 then k % 2 else if k == 1 then l else l - 1
    ensures Shares(l, w, k) == LongRun(l, k)
  {
    if k == 1 {
      FirstShares(l, w);
    } else {
      SharesAre(l, w, k - 1);
      CeilDivPositive(Share(l, w, k - 1), w);
      Distribute(k - 1, 1, l - 1);
    }
  }

  lemma EstimateOfNothing(id: Identity, t: nat, w: nat)
    requires w > 0
    ensures LogEstimate([], id, t, w) == 0
  {
    CeilDivLeast(0, w, 0);
  }

  lemma NoEntries(id: Identity)
    ensures forall lo, hi :: CountIn([], id, lo, hi) == 0
  {}
}

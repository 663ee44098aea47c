/** The limiter as a full log of admissions that never forgets, and the bounds it keeps. */
module RateLog {
  import opened RateArithmetic
  import opened RateKeys
  import opened RateStore

  datatype Admission = Admission(id: Identity, at: nat)

  /** Admissions of `id` at times in [lo, hi). */
  function CountIn(log: seq<Admission>, id: Identity, lo: nat, hi: nat): nat {
    if log == [] then 0
    else
      var last := log[|log| - 1];
      CountIn(log[..|log| - 1], id, lo, hi) + if last.id == id && lo <= last.at < hi then 1 else 0
  }

  /** Start of the bucket that holds time `t`. */
  function BucketStart(t: nat, w: nat): (s: nat)
    requires w > 0
    ensures s <= t < s + w
  {
    t - t % w
  }

  /** Admissions in the bucket of `t`, and in the one before. */
  function Current(log: seq<Admission>, id: Identity, t: nat, w: nat): nat
    requires w > 0
  {
    CountIn(log, id, BucketStart(t, w), BucketStart(t, w) + w)
  }

  function Previous(log: seq<Admission>, id: Identity, t: nat, w: nat): nat
    requires w > 0
  {
    var s := BucketStart(t, w);
    if s < w then 0 else CountIn(log, id, s - w, s)
  }

  /** The exact estimate of the rate of `id` at time `t`. */
  function LogEstimate(log: seq<Admission>, id: Identity, t: nat, w: nat): nat
    requires w > 0
  {
    CeilDiv(Previous(log, id, t, w) * (w - t % w), w) + Current(log, id, t, w)
  }

  /** No earlier admission of the same identity lies in a later bucket. */
  predicate InTurn(before: seq<Admission>, last: Admission, w: nat)
    requires w > 0
  {
    forall i :: 0 <= i < |before| && before[i].id == last.id ==>
      BucketNumber(before[i].at, w) <= BucketNumber(last.at, w)
  }

  /** A log in which the admissions of `id` come in bucket order, each made while the exact estimate was under
      the limit. */
  predicate AdmittedLog(cfg: RateLimitConfig, log: seq<Admission>, id: Identity)
    requires ValidConfig(cfg)
  {
    log == [] ||
    var before, last := log[..|log| - 1], log[|log| - 1];
    && AdmittedLog(cfg, before, id)
    && (last.id == id ==>
          && InTurn(before, last, Window(cfg, id))
          && last.at >= Window(cfg, id)
          && LogEstimate(before, id, last.at, Window(cfg, id)) < Limit(cfg, id))
  }

  // --------------------------------------------------------------- counting

  lemma {:induction false} CountSplit(log: seq<Admission>, id: Identity, lo: nat, mid: nat, hi: nat)
    requires lo <= mid <= hi
    ensures CountIn(log, id, lo, hi) == CountIn(log, id, lo, mid) + CountIn(log, id, mid, hi)
  {
    if log != [] {
      CountSplit(log[..|log| - 1], id, lo, mid, hi);
    }
  }

  lemma {:induction false} CountNone(log: seq<Admission>, id: Identity, lo: nat, hi: nat)
    requires forall i :: 0 <= i < |log| && log[i].id == id ==> !(lo <= log[i].at < hi)
    ensures CountIn(log, id, lo, hi) == 0
  {
    if log != [] {
      CountNone(log[..|log| - 1], id, lo, hi);
    }
  }

  lemma CountAppend(log: seq<Admission>, a: Admission, id: Identity, lo: nat, hi: nat)
    ensures CountIn(log + [a], id, lo, hi) == CountIn(log, id, lo, hi) + if a.id == id && lo <= a.at < hi then 1 else 0
  {
    assert (log + [a])[..|log|] == log;
  }

  // ---------------------------------------------------------------- buckets

  lemma MultipleStep(s: nat, w: nat)
    requires w > 0 && s % w == 0
    ensures (s + w) % w == 0 && (s >= w ==> (s - w) % w == 0) && (0 < s ==> s >= w)
  {
    DivMod(s, w);
    var d := s / w;
    assert w * d == d * w;
    Distribute(d, 1, w);
    MultipleHasNoRest(s + w, d + 1, w);
    if s >= w {
      Distribute(d, -1, w);
      ProductCancels(d, w);
      MultipleHasNoRest(s - w, d - 1, w);
    }
  }

  lemma ProductCancels(d: nat, w: nat)
    requires w > 0
    ensures d * w >= w ==> d >= 1
    ensures d * w > 0 ==> d * w >= w
  {
    if d >= 1 {
      MulKeepsOrder(1, d, w);
    }
  }

  /** Every time inside [s, s + w) of a bucket start `s` has that start. */
  lemma StartInside(t: nat, s: nat, w: nat)
    requires w > 0 && s % w == 0 && s <= t < s + w
    ensures BucketStart(t, w) == s && t % w == t - s && t / w == s / w
  {
    DivMod(t, w);
    DivMod(s, w);
    var d, e := t / w, s / w;
    assert w * d == d * w && w * e == e * w;
    Distribute(d, 1, w);
    Distribute(e, 1, w);
    MulCancel(e, d + 1, w);
    MulCancel(d, e + 1, w);
  }

  lemma StartIsMultiple(t: nat, w: nat)
    requires w > 0
    ensures BucketStart(t, w) % w == 0 && BucketStart(t, w) / w == t / w
    ensures t >= w ==> BucketStart(t, w) >= w
  {
    DivMod(t, w);
    assert w * (t / w) == (t / w) * w;
    MultipleHasNoRest(BucketStart(t, w), t / w, w);
    if t >= w {
      PastFirstBucket(t, w);
      MulKeepsOrder(1, t / w, w);
    }
  }

  // ------------------------------------------------------------------ bounds

  /** After an admission at offset r of its bucket: previous + current <= limit + floor(previous * r / window). */
  lemma AdmissionBound(log: seq<Admission>, id: Identity, t: nat, w: nat, limit: int)
    requires w > 0 && LogEstimate(log, id, t, w) < limit
    ensures Previous(log, id, t, w) + Current(log, id, t, w) + 1 <= limit + Previous(log, id, t, w) * (t % w) / w
  {
    var p, r := Previous(log, id, t, w), t % w;
    CeilFloor(p, r, w);
  }

  lemma CeilFloor(p: nat, r: nat, w: nat)
    requires r <= w && w > 0
    ensures CeilDiv(p * (w - r), w) + p * r / w == p
  {
    Distribute3(p, w, r);
    DivMod(p * r, w);
    var q := p * r / w;
    assert w * q == q * w;
    Complement(p, p * (w - r), p * r, q, w);
  }

  lemma Distribute3(p: nat, w: nat, r: nat)
    requires r <= w
    ensures p * (w - r) + p * r == p * w && p * (w - r) >= 0 && p * r >= 0
  {}

  lemma Complement(p: nat, a: nat, b: nat, q: nat, w: nat)
    requires w > 0 && a + b == p * w && q * w <= b < q * w + w
    ensures CeilDiv(a, w) + q == p
  {
    MulCancelWeak(q, p, w, b);
    Distribute(p - q, q, w);
    CeilDivLeast(a, w, p - q);
    CeilDivBounds(a, w);
    Distribute(p - q, -1, w);
    MulCancel(p - q - 1, CeilDiv(a, w), w);
  }

  lemma MulCancelWeak(q: nat, p: nat, w: nat, b: nat)
    requires w > 0 && q * w <= b <= p * w
    ensures q <= p
  {
    Distribute(p, 1, w);
    MulCancel(q, p + 1, w);
  }

  /** A bucket and the weighted share of the bucket before it never exceed the limit together. */
  lemma {:induction false} BucketBound(cfg: RateLimitConfig, log: seq<Admission>, id: Identity, s: nat)
    requires ValidConfig(cfg) && AdmittedLog(cfg, log, id) && Limit(cfg, id) >= 1
    requires s % Window(cfg, id) == 0 && s >= Window(cfg, id)
    ensures
      var w := Window(cfg, id);
      CountIn(log, id, s, s + w) + CeilDiv(CountIn(log, id, s - w, s), w) <= Limit(cfg, id)
    decreases |log|, s
  {
    var w := Window(cfg, id);
    if log == [] {
      CeilDivPositive(0, w);
    } else {
      var before, last := log[..|log| - 1], log[|log| - 1];
      BucketBound(cfg, before, id, s);
      if last.id == id && s <= last.at < s + w {
        StartInside(last.at, s, w);
        WeightAtLeast(Previous(before, id, last.at, w), last.at % w, w);
      } else if last.id == id && s - w <= last.at < s {
        BucketBefore(cfg, log, id, s);
      }
    }
  }

  /** A time of no later bucket than one before `s` is itself before `s`. */
  lemma EarlierBucket(t: nat, t': nat, s: nat, w: nat)
    requires w > 0 && s % w == 0 && t' < s && BucketNumber(t, w) <= BucketNumber(t', w)
    ensures t < s
  {
    DivMod(t, w);
    DivMod(t', w);
    DivMod(s, w);
    var d, d', e := t / w, t' / w, s / w;
    assert w * d == d * w && w * d' == d' * w && w * e == e * w;
    MulCancel(d', e, w);
    Distribute(d, 1, w);
    MulKeepsOrder(d + 1, e, w);
  }

  /** Nothing of `id` lies past a bucket start that its last admission has not reached. */
  lemma NothingLater(before: seq<Admission>, last: Admission, s: nat, w: nat)
    requires w > 0 && s % w == 0 && InTurn(before, last, w) && last.at < s
    ensures CountIn(before + [last], last.id, s, s + w) == 0
  {
    hide BucketNumber, CountIn;
    var log := before + [last];
    forall i | 0 <= i < |log| && log[i].id == last.id ensures log[i].at < s {
      if i < |before| {
        EarlierBucket(before[i].at, last.at, s, w);
      }
    }
    CountNone(log, last.id, s, s + w);
  }

  /** The last admission falls in the previous bucket, so the bucket itself is still empty. */
  lemma BucketBefore(cfg: RateLimitConfig, log: seq<Admission>, id: Identity, s: nat)
    requires ValidConfig(cfg) && AdmittedLog(cfg, log, id) && log != [] && Limit(cfg, id) >= 1
    requires s % Window(cfg, id) == 0 && s >= Window(cfg, id)
    requires log[|log| - 1].id == id && s - Window(cfg, id) <= log[|log| - 1].at < s
    ensures
      var w := Window(cfg, id);
      CountIn(log, id, s, s + w) == 0 && CeilDiv(CountIn(log, id, s - w, s), w) <= Limit(cfg, id)
  {
    hide InTurn, LogEstimate, Window, Limit, CeilDiv, CountIn, AdmittedLog;
    var w := Window(cfg, id);
    var before, last := log[..|log| - 1], log[|log| - 1];
    assert log == before + [last];
    LastUnderLimit(cfg, log, id);
    NothingLater(before, last, s, w);
    MultipleStep(s, w);
    LastInBucket(before, last, id, s - w, w, Limit(cfg, id));
    CeilDivAtMost(CountIn(log, id, s - w, s), w);
  }

  lemma LastUnderLimit(cfg: RateLimitConfig, log: seq<Admission>, id: Identity)
    requires ValidConfig(cfg) && AdmittedLog(cfg, log, id) && log != [] && log[|log| - 1].id == id
    ensures InTurn(log[..|log| - 1], log[|log| - 1], Window(cfg, id))
    ensures LogEstimate(log[..|log| - 1], id, log[|log| - 1].at, Window(cfg, id)) < Limit(cfg, id)
  {}

  /** An admission under the limit leaves its bucket within the limit. */
  lemma LastInBucket(before: seq<Admission>, last: Admission, id: Identity, s: nat, w: nat, limit: int)
    requires w > 0 && s % w == 0 && last.id == id && s <= last.at < s + w && LogEstimate(before, id, last.at, w) < limit
    ensures CountIn(before + [last], id, s, s + w) <= limit
  {
    StartInside(last.at, s, w);
    CountAppend(before, last, id, s, s + w);
  }

  /** No time before the second bucket holds an admission. */
  lemma {:induction false} NothingEarly(cfg: RateLimitConfig, log: seq<Admission>, id: Identity, lo: nat, hi: nat)
    requires ValidConfig(cfg) && AdmittedLog(cfg, log, id) && hi <= Window(cfg, id)
    ensures CountIn(log, id, lo, hi) == 0
  {
    if log != [] {
      NothingEarly(cfg, log[..|log| - 1], id, lo, hi);
    }
  }

  lemma BucketAtMostLimit(cfg: RateLimitConfig, log: seq<Admission>, id: Identity, s: nat)
    requires ValidConfig(cfg) && AdmittedLog(cfg, log, id) && Limit(cfg, id) >= 1
    requires s % Window(cfg, id) == 0
    ensures CountIn(log, id, s, s + Window(cfg, id)) <= Limit(cfg, id)
  {
    if s == 0 {
      NothingEarly(cfg, log, id, 0, Window(cfg, id));
    } else {
      MultipleStep(s, Window(cfg, id));
      BucketBound(cfg, log, id, s);
    }
  }

  /** Any closed interval as long as the window holds at most 2 * limit - ceil(limit / window)
      admissions of one identity; that is 2 * limit - 1 while the limit fits in the window. */
  lemma WindowBound(cfg: RateLimitConfig, log: seq<Admission>, id: Identity, a: nat)
    requires ValidConfig(cfg) && AdmittedLog(cfg, log, id) && Limit(cfg, id) >= 1
    ensures
      var w, l := Window(cfg, id), Limit(cfg, id);
      CountIn(log, id, a, a + w + 1) <= 2 * l - CeilDiv(l, w)
  {
    var w, l := Window(cfg, id), Limit(cfg, id);
    var s := BucketStart(a, w);
    StartIsMultiple(a, w);
    MultipleStep(s, w);
    CountSplit(log, id, a, s + w, a + w + 1);
    CountSplit(log, id, s, a, s + w);
    CountSplit(log, id, s + w, a + w + 1, s + w + w);
    BucketAtMostLimit(cfg, log, id, s);
    BucketBound(cfg, log, id, s + w);
    CeilDivGrowth(CountIn(log, id, s, s + w), l, w);
  }

  /** With limit 1, any two admissions of one identity are more than a window apart. */
  lemma MinimumGap(cfg: RateLimitConfig, log: seq<Admission>, id: Identity, i: nat, j: nat)
    requires ValidConfig(cfg) && AdmittedLog(cfg, log, id) && i < j < |log| && log[i].id == log[j].id == id
    requires Limit(cfg, id) == 1
    ensures log[j].at > log[i].at + Window(cfg, id)
  {
    hide AdmittedLog, CountIn, BucketNumber;
    var w := Window(cfg, id);
    CeilDivPositive(1, w);
    var a := if log[i].at <= log[j].at then log[i].at else log[j].at;
    WindowBound(cfg, log, id, a);
    InOrder(cfg, log, id, i, j);
    SameOrEarlier(log[i].at, log[j].at, w);
    if log[j].at <= log[i].at + w {
      CountTwo(log, id, a, a + w + 1, i, j);
    }
  }

  /** A time of no later bucket is less than a window later. */
  lemma SameOrEarlier(t: nat, t': nat, w: nat)
    requires w > 0 && BucketNumber(t, w) <= BucketNumber(t', w)
    ensures t < t' + w
  {
    StartIsMultiple(t', w);
    MultipleStep(BucketStart(t', w), w);
    StartInside(t', BucketStart(t', w), w);
    EarlierBucket(t, t', BucketStart(t', w) + w, w);
  }

  lemma {:induction false} InOrder(cfg: RateLimitConfig, log: seq<Admission>, id: Identity, i: nat, j: nat)
    requires ValidConfig(cfg) && AdmittedLog(cfg, log, id) && i < j < |log| && log[i].id == log[j].id == id
    ensures BucketNumber(log[i].at, Window(cfg, id)) <= BucketNumber(log[j].at, Window(cfg, id))
  {
    hide BucketNumber, LogEstimate, Window, Limit;
    if j < |log| - 1 {
      InOrder(cfg, log[..|log| - 1], id, i, j);
    } else {
      assert log[..|log| - 1][i] == log[i];
    }
  }

  lemma {:induction false} CountOne(log: seq<Admission>, id: Identity, lo: nat, hi: nat, i: nat)
    requires i < |log| && log[i].id == id && lo <= log[i].at < hi
    ensures CountIn(log, id, lo, hi) >= 1
  {
    if i < |log| - 1 {
      CountOne(log[..|log| - 1], id, lo, hi, i);
    }
  }

  lemma {:induction false} CountTwo(log: seq<Admission>, id: Identity, lo: nat, hi: nat, i: nat, j: nat)
    requires i < j < |log| && log[i].id == id && log[j].id == id && lo <= log[i].at < hi && lo <= log[j].at < hi
    ensures CountIn(log, id, lo, hi) >= 2
  {
    if j < |log| - 1 {
      CountTwo(log[..|log| - 1], id, lo, hi, i, j);
    } else {
      CountOne(log[..|log| - 1], id, lo, hi, i);
    }
  }

  lemma CeilDivAtMost(p: nat, w: nat)
    requires w > 0
    ensures CeilDiv(p, w) <= p
  {
    MulMonotone(p, 1, w);
    CeilDivLeast(p, w, p);
  }

  /** What a caller gets out of bucket `j` by always calling at the last millisecond. */
  function Share(l: nat, w: nat, j: nat): (n: nat)
    requires w > 0
    ensures n <= l
  {
    if j == 0 then 0
    else
      var before := Share(l, w, j - 1);
      CeilDivAtMost(before, w);
      l - CeilDiv(before, w)
  }

  function Shares(l: nat, w: nat, k: nat): nat
    requires w > 0
  {
    if k == 0 then 0 else Shares(l, w, k - 1) + Share(l, w, k)
  }

  /** Filling each bucket as far as the one before allows is best: a smaller bucket costs as much as the
      room it leaves. */
  lemma GreedyStep(l: nat, w: nat, n: nat, g: nat, s: nat, s1: nat, t: nat, t1: nat)
    requires w > 0 && n <= l && g <= l
    requires s1 == s + n && t1 == t + g && s <= t && s1 <= t1
    ensures s1 - CeilDiv(n, w) <= t1 - CeilDiv(g, w)
  {
    if n <= g {
      CeilDivGrowth(n, g, w);
    } else {
      CeilDivMonotone(g, n, w);
    }
  }

  /** What the last of `k` buckets adds, given what the shorter runs hold. */
  lemma SharesLast(cfg: RateLimitConfig, log: seq<Admission>, id: Identity, s: nat, e: nat, k: nat)
    requires ValidConfig(cfg) && AdmittedLog(cfg, log, id) && Limit(cfg, id) >= 1
    requires k >= 2 && s <= e - Window(cfg, id) && e % Window(cfg, id) == 0
    requires CountIn(log, id, s, e) <= Shares(Limit(cfg, id), Window(cfg, id), k - 1)
    requires CountIn(log, id, s, e - Window(cfg, id)) <= Shares(Limit(cfg, id), Window(cfg, id), k - 2)
    ensures CountIn(log, id, s, e + Window(cfg, id)) <= Shares(Limit(cfg, id), Window(cfg, id), k)
  {
    hide AdmittedLog, CountIn, CeilDiv, Window, Limit;
    var w, l := Window(cfg, id), Limit(cfg, id);
    var n := CountIn(log, id, e - w, e);
    CountSplit(log, id, s, e, e + w);
    CountSplit(log, id, s, e - w, e);
    BucketBound(cfg, log, id, e);
    MultipleStep(e, w);
    BucketAtMostLimit(cfg, log, id, e - w);
    GreedyStep(l, w, n, Share(l, w, k - 1), CountIn(log, id, s, e - w), CountIn(log, id, s, e), Shares(l, w, k - 2),
      Shares(l, w, k - 1));
  }

  /** Over any k consecutive buckets an identity is admitted at most as often as by filling each in turn. */
  lemma {:induction false} SharesBound(cfg: RateLimitConfig, log: seq<Admission>, id: Identity, s: nat, k: nat)
    requires ValidConfig(cfg) && AdmittedLog(cfg, log, id) && Limit(cfg, id) >= 1 && s % Window(cfg, id) == 0
    ensures CountIn(log, id, s, s + k * Window(cfg, id)) <= Shares(Limit(cfg, id), Window(cfg, id), k)
    decreases k
  {
    hide AdmittedLog, CountIn, Shares, Share;
    var w, l := Window(cfg, id), Limit(cfg, id);
    FirstShares(l, w);
    if k == 0 {
      EmptyInterval(log, id, s);
    } else {
      SharesBound(cfg, log, id, s, k - 1);
      Distribute(k - 1, 1, w);
      BucketOf(s, k - 1, w);
      if k == 1 {
        BucketAtMostLimit(cfg, log, id, s);
      } else {
        SharesBound(cfg, log, id, s, k - 2);
        Distribute(k - 2, 1, w);
        ProductNonNegative(k - 2, w);
        SharesLast(cfg, log, id, s, s + (k - 1) * w, k);
      }
    }
  }

  lemma FirstShares(l: nat, w: nat)
    requires w > 0
    ensures Shares(l, w, 0) == 0 && Shares(l, w, 1) == Share(l, w, 1) == l
    ensures Share(l, w, 2) == l - CeilDiv(l, w)
  {
    CeilDivLeast(0, w, 0);
  }

  /** At most k * (limit - 1) + 1, or every other bucket when the limit is 1. */
  function LongRun(l: nat, k: nat): nat
    requires l >= 1
  {
    if l == 1 then (k + 1) / 2 else k * (l - 1) + 1
  }

  lemma {:induction false} SharesWithin(l: nat, w: nat, k: nat)
    requires l >= 1 && w > 0
    ensures Shares(l, w, k) <= if k == 0 then 0 else LongRun(l, k)
    decreases k
  {
    hide LongRun, CeilDiv;
    if k == 1 {
      FirstShares(l, w);
      LongRunOne(l);
    } else if k >= 2 {
      SharesWithin(l, w, k - 1);
      SharesWithin(l, w, k - 2);
      LongRunStep(l, k);
      CeilDivPositive(Share(l, w, k - 1), w);
    }
  }

  lemma LongRunOne(l: nat)
    requires l >= 1
    ensures LongRun(l, 1) == l
  {}

  /** Over any k >= 1 consecutive buckets: at most k * (limit - 1) + 1 admissions, and every other
      bucket only when the limit is 1. */
  lemma LongRunBound(cfg: RateLimitConfig, log: seq<Admission>, id: Identity, s: nat, k: nat)
    requires ValidConfig(cfg) && AdmittedLog(cfg, log, id) && Limit(cfg, id) >= 1 && s % Window(cfg, id) == 0
    ensures CountIn(log, id, s, s + k * Window(cfg, id)) <= if k == 0 then 0 else LongRun(Limit(cfg, id), k)
  {
    hide AdmittedLog, CountIn, Shares, LongRun;
    SharesBound(cfg, log, id, s, k);
    SharesWithin(Limit(cfg, id), Window(cfg, id), k);
  }

  lemma LongRunStep(l: nat, k: nat)
    requires l >= 1 && k >= 2
    ensures l >= 2 ==> LongRun(l, k - 1) + (l - 1) == LongRun(l, k)
    ensures (if k == 2 then 0 else LongRun(l, k - 2)) + l <= LongRun(l, k)
    ensures LongRun(l, k - 1) <= LongRun(l, k)
  {
    Distribute(k - 1, 1, l - 1);
    Distribute(k - 2, 2, l - 1);
  }

  lemma EmptyInterval(log: seq<Admission>, id: Identity, s: nat)
    ensures CountIn(log, id, s, s) == 0
  {
    CountSplit(log, id, s, s, s);
  }

  lemma {:induction false} BucketOf(s: nat, k: nat, w: nat)
    requires w > 0 && s % w == 0
    ensures (s + k * w) % w == 0
  {
    if k > 0 {
      BucketOf(s, k - 1, w);
      Distribute(k - 1, 1, w);
      MultipleStep(s + (k - 1) * w, w);
    }
  }
}

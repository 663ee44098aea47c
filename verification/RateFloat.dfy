/** The product as the program computes it in double precision: a rounded quotient, a rounded difference,
    a rounded product. */
module RateFloat {
  import opened RateArithmetic

  const P53: nat := 0x20_0000_0000_0000

  /** The range of a 64-bit count of milliseconds. */
  const U64: nat := 0x1_0000_0000_0000_0000

  /** A difference in units of 2^-53. */
  function Scaled(d: real): real {
    d * 9007199254740992.0
  }

  /** What is used of rounding to double precision: up to 2^64 it keeps order; up to 2^53 it keeps whole numbers
      and is off by at most 2^-53 of the number, or of 1 below 1. */
  ghost predicate Rounding(rnd: real -> real) {
    && (forall n: nat :: n <= P53 ==> KeepsWhole(rnd, n))
    && (forall x: real, y: real :: 0.0 <= x <= y <= U64 as real ==> rnd(x) <= rnd(y))
    && (forall x: real :: 0.0 <= x <= P53 as real ==> Near(x, rnd(x)))
  }

  predicate KeepsWhole(rnd: real -> real, n: nat) {
    rnd(n as real) == n as real
  }

  predicate Near(x: real, y: real) {
    var scale := if x < 1.0 then 1.0 else x;
    -scale <= Scaled(y - x) <= scale
  }

  function Times(a: real, b: real): real {
    a * b
  }

  /** The fraction of the bucket that is over; converting the two counts to doubles may already round. */
  function Elapsed(rnd: real -> real, offset: nat, window: nat): real {
    if rnd(window as real) == 0.0 then 0.0 else rnd(rnd(offset as real) / rnd(window as real))
  }

  /** `previous_weight`. */
  function Weight(rnd: real -> real, offset: nat, window: nat): real {
    rnd(1.0 - Elapsed(rnd, offset, window))
  }

  /** `previous_count * previous_weight`. */
  function FloatProduct(rnd: real -> real): Product {
    (previous: nat, offset: nat, window: nat) => rnd(Times(previous as real, Weight(rnd, offset, window)))
  }

  lemma FloatProductIs(rnd: real -> real, p: nat, r: nat, w: nat)
    ensures FloatProduct(rnd)(p, r, w) == rnd(Times(p as real, Weight(rnd, r, w)))
  {}

  // ---------------------------------------------------------------- real products

  lemma TimesOrder(p: real, x: real, y: real)
    requires p >= 0.0 && x <= y
    ensures Times(p, x) <= Times(p, y)
  {
    assert p * (y - x) >= 0.0;
    assert p * y == p * x + p * (y - x);
  }

  lemma TimesUnit(p: real)
    ensures Times(p, 0.0) == 0.0 && Times(p, 1.0) == p
  {}

  lemma TimesSub(p: real, x: real, y: real)
    ensures Times(p, x - y) == Times(p, x) - Times(p, y)
  {}

  lemma TimesBetween(p: real, x: real, y: real)
    requires p >= 0.0 && 0.0 <= x <= y <= 1.0
    ensures 0.0 <= Times(p, x) <= Times(p, y) <= p
  {
    hide Times;
    TimesUnit(p);
    TimesOrder(p, 0.0, x);
    TimesOrder(p, x, y);
    TimesOrder(p, y, 1.0);
  }

  lemma TimesSmall(p: real, d: real)
    requires p >= 0.0 && -2.0 <= Scaled(d) <= 2.0
    ensures -2.0 * p <= Scaled(Times(p, d)) <= 2.0 * p
  {
    var c := 2.0 / 9007199254740992.0;
    TimesOrder(p, d, c);
    TimesOrder(p, -c, d);
  }

  lemma TimesStrict(p: real, x: real, y: real)
    requires p > 0.0 && x < y
    ensures Times(p, x) < Times(p, y)
  {
    assert p * (y - x) > 0.0;
    assert p * y == p * x + p * (y - x);
  }

  lemma Quotient(x: real, w: real)
    requires w > 0.0
    ensures Times(w, x / w) == x
  {}

  lemma Ratio(x: real, y: real, w: real)
    requires 0.0 <= x <= y <= w && w > 0.0
    ensures 0.0 <= x / w <= y / w <= 1.0
  {
    hide Times;
    var q, q' := x / w, y / w;
    Quotient(x, w);
    Quotient(y, w);
    TimesUnit(w);
    if q < 0.0 { TimesStrict(w, q, 0.0); }
    if q' < q { TimesStrict(w, q', q); }
    if 1.0 < q' { TimesStrict(w, 1.0, q'); }
  }

  // --------------------------------------------------------------------- rounding

  lemma KeepsOrder(rnd: real -> real, x: real, y: real)
    requires Rounding(rnd) && 0.0 <= x <= y <= U64 as real
    ensures rnd(x) <= rnd(y)
  {}

  lemma StaysNear(rnd: real -> real, x: real)
    requires Rounding(rnd) && 0.0 <= x <= P53 as real
    ensures Near(x, rnd(x))
  {}

  lemma RoundsWithin(rnd: real -> real, x: real, n: nat)
    requires Rounding(rnd) && 0.0 <= x <= n as real && n <= P53
    ensures 0.0 <= rnd(x) <= n as real
  {
    assert KeepsWhole(rnd, 0) && KeepsWhole(rnd, n);
    KeepsOrder(rnd, 0.0, x);
    KeepsOrder(rnd, x, n as real);
  }

  lemma KeepsCount(rnd: real -> real, n: nat)
    requires Rounding(rnd) && n <= P53
    ensures rnd(n as real) == n as real
  {
    assert KeepsWhole(rnd, n);
  }

  /** Converted counts keep their order, and a positive window stays positive. */
  lemma ConvertedOrder(rnd: real -> real, r: nat, r': nat, w: nat)
    requires Rounding(rnd) && r <= r' < w < U64
    ensures 0.0 <= rnd(r as real) <= rnd(r' as real) <= rnd(w as real) && rnd(w as real) > 0.0
  {
    hide Rounding;
    KeepsCount(rnd, 0);
    KeepsCount(rnd, 1);
    KeepsOrder(rnd, 0.0, r as real);
    KeepsOrder(rnd, r as real, r' as real);
    KeepsOrder(rnd, r' as real, w as real);
    KeepsOrder(rnd, 1.0, w as real);
  }

  lemma ElapsedGrows(rnd: real -> real, r: nat, r': nat, w: nat)
    requires Rounding(rnd) && r <= r' < w < U64
    ensures 0.0 <= Elapsed(rnd, r, w) <= Elapsed(rnd, r', w) <= 1.0
  {
    hide Rounding;
    ConvertedOrder(rnd, r, r', w);
    Ratio(rnd(r as real), rnd(r' as real), rnd(w as real));
    var q, q' := rnd(r as real) / rnd(w as real), rnd(r' as real) / rnd(w as real);
    RoundsWithin(rnd, q, 1);
    RoundsWithin(rnd, q', 1);
    KeepsOrder(rnd, q, q');
  }

  /** The weight lies between 0 and 1 and falls along the bucket. */
  lemma WeightFalls(rnd: real -> real, r: nat, r': nat, w: nat)
    requires Rounding(rnd) && r <= r' < w < U64
    ensures 0.0 <= Weight(rnd, r', w) <= Weight(rnd, r, w) <= 1.0
  {
    hide Rounding, Elapsed;
    var q, q' := Elapsed(rnd, r, w), Elapsed(rnd, r', w);
    ElapsedGrows(rnd, r, r', w);
    RoundsWithin(rnd, 1.0 - q, 1);
    RoundsWithin(rnd, 1.0 - q', 1);
    KeepsOrder(rnd, 1.0 - q', 1.0 - q);
  }

  /** The computed product falls along the bucket and never exceeds the count. */
  lemma FloatFalls(rnd: real -> real, p: nat, r: nat, r': nat, w: nat)
    requires Rounding(rnd) && r <= r' < w < U64 && p <= P53
    ensures 0.0 <= FloatProduct(rnd)(p, r', w) <= FloatProduct(rnd)(p, r, w) <= p as real
  {
    hide Rounding, Weight, Times, FloatProduct;
    var v, v' := Weight(rnd, r, w), Weight(rnd, r', w);
    WeightFalls(rnd, r, r', w);
    TimesBetween(p as real, v', v);
    RoundsWithin(rnd, Times(p as real, v), p);
    RoundsWithin(rnd, Times(p as real, v'), p);
    KeepsOrder(rnd, Times(p as real, v'), Times(p as real, v));
    FloatProductIs(rnd, p, r, w);
    FloatProductIs(rnd, p, r', w);
  }

  /** Two roundings bring the weight within 2^-52 of the exact one. */
  lemma WeightError(rnd: real -> real, r: nat, w: nat)
    requires Rounding(rnd) && r < w <= P53
    ensures -2.0 <= Scaled(Weight(rnd, r, w) - (1.0 - r as real / w as real)) <= 2.0
  {
    hide Rounding;
    var q := r as real / w as real;
    KeepsCount(rnd, r);
    KeepsCount(rnd, w);
    Ratio(r as real, r as real, w as real);
    RoundsWithin(rnd, q, 1);
    StaysNear(rnd, q);
    StaysNear(rnd, 1.0 - rnd(q));
  }

  /** Three roundings bring the product of a positive count within 3 * count * 2^-53 of the exact one. */
  lemma ProductError(rnd: real -> real, p: nat, r: nat, w: nat)
    requires Rounding(rnd) && r < w <= P53 && 1 <= p <= P53
    ensures -3.0 * p as real <= Scaled(FloatProduct(rnd)(p, r, w) - ExactProduct(p, r, w)) <= 3.0 * p as real
  {
    hide Rounding, Weight, Times, FloatProduct, ExactProduct;
    var pr, v, exact := p as real, Weight(rnd, r, w), 1.0 - r as real / w as real;
    WeightFalls(rnd, r, r, w);
    WeightError(rnd, r, w);
    TimesBetween(pr, v, v);
    TimesSub(pr, v, exact);
    TimesSmall(pr, v - exact);
    StaysNear(rnd, Times(pr, v));
    FloatProductIs(rnd, p, r, w);
    ExactProductTimes(p, r, w);
  }

  lemma ExactProductTimes(p: nat, r: nat, w: nat)
    requires w > 0
    ensures ExactProduct(p, r, w) == Times(p as real, 1.0 - r as real / w as real)
  {}

  lemma SmallError(d: real, p: nat, w: nat)
    requires w > 0 && 3 * (p * w) < P53 && -3.0 * p as real <= Scaled(d) <= 3.0 * p as real
    ensures -1.0 / w as real < d < 1.0 / w as real
  {
    hide Times;
    var wr, c := w as real, 3.0 * p as real / 9007199254740992.0;
    Inverse(wr);
    TimesScaled(p, w, c);
    TimesOrder(wr, d, c);
    TimesOrder(wr, -c, d);
    if d >= 1.0 / wr { TimesOrder(wr, 1.0 / wr, d); }
    if d <= -1.0 / wr { TimesOrder(wr, d, -1.0 / wr); }
  }

  lemma Inverse(w: real)
    requires w > 0.0
    ensures Times(w, 1.0 / w) == 1.0 && Times(w, -1.0 / w) == -1.0
  {}

  lemma TimesScaled(p: nat, w: nat, c: real)
    requires c == 3.0 * p as real / 9007199254740992.0 && 3 * (p * w) < P53
    ensures Times(w as real, c) < 1.0 && Times(w as real, -c) > -1.0
  {
    assert (p * w) as real == p as real * w as real;
    assert Times(w as real, c) == 3.0 * (p as real * w as real) / 9007199254740992.0;
    assert Times(w as real, -c) == -Times(w as real, c);
  }

  /** In double precision the product is faithful as long as 3 * count * window stays under 2^53. */
  lemma FloatIsFaithful(rnd: real -> real, p: nat, r: nat, w: nat)
    requires Rounding(rnd) && r < w < U64 && 3 * (p * w) < P53
    ensures FaithfulAt(FloatProduct(rnd), p, r, w)
  {
    hide Rounding, FloatProduct, ExactProduct;
    if p == 0 {
      FloatFalls(rnd, 0, r, r, w);
      ExactProductTimes(0, r, w);
      TimesZero(1.0 - r as real / w as real);
      OverPositive(w);
    } else {
      MulMonotone(p, 1, w);
      MulKeepsOrder(1, p, w);
      ProductError(rnd, p, r, w);
      SmallError(FloatProduct(rnd)(p, r, w) - ExactProduct(p, r, w), p, w);
    }
  }

  lemma TimesZero(x: real)
    ensures Times(0 as real, x) == 0.0
  {}
}

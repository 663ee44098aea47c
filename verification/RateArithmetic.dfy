/** Arithmetic of the two-bucket estimate. */
module RateArithmetic {

  /** Integer division rounded up. */
  function CeilDiv(a: nat, w: nat): nat
    requires w > 0
  {
    (a + w - 1) / w
  }

  /** `math.ceil`. */
  function Ceil(x: real): int {
    -((-x).Floor)
  }

  /** A number used as a product: what multiplying `previous` by the bucket weight at `offset` gives. */
  type Product = (nat, nat, nat) -> real

  /** previous_count * (1 - offset / window), without rounding. */
  function ExactProduct(previous: nat, offset: nat, window: nat): real {
    if window == 0 then 0.0 else previous as real * (1.0 - offset as real / window as real)
  }

  /** At this count, offset and window the product is off by less than one part in `w`, and zero on zero. */
  predicate FaithfulAt(f: Product, p: nat, r: nat, w: nat)
    requires r < w
  {
    -1.0 / w as real < f(p, r, w) - ExactProduct(p, r, w) < 1.0 / w as real && (p == 0 ==> f(p, r, w) == 0.0)
  }

  lemma DivMod(a: nat, w: nat)
    requires w > 0
    ensures a == w * (a / w) + a % w && 0 <= a % w < w
  {}

  lemma Distribute(a: int, d: int, w: int)
    ensures (a + d) * w == a * w + d * w
  {}

  lemma ProductNonNegative(d: nat, w: nat)
    ensures d * w >= 0
  {}

  lemma MulKeepsOrder(a: int, b: int, w: nat)
    requires a <= b
    ensures a * w <= b * w
  {
    Distribute(a, b - a, w);
    ProductNonNegative(b - a, w);
  }

  lemma MulCancel(a: int, b: int, w: nat)
    requires a * w < b * w
    ensures a < b
  {
    if b <= a {
      MulKeepsOrder(b, a, w);
    }
  }

  /** The rounded-up quotient is the least `q` with `a <= q * w`. */
  lemma CeilDivBounds(a: nat, w: nat)
    requires w > 0
    ensures a <= CeilDiv(a, w) * w < a + w
  {
    DivMod(a + w - 1, w);
    assert w * CeilDiv(a, w) == CeilDiv(a, w) * w;
  }

  lemma CeilDivLeast(a: nat, w: nat, q: int)
    requires w > 0 && a <= q * w
    ensures CeilDiv(a, w) <= q
  {
    CeilDivBounds(a, w);
    Distribute(CeilDiv(a, w), -1, w);
    MulCancel(CeilDiv(a, w) - 1, q, w);
  }

  lemma CeilDivMonotone(a: nat, b: nat, w: nat)
    requires w > 0 && a <= b
    ensures CeilDiv(a, w) <= CeilDiv(b, w)
  {
    CeilDivBounds(b, w);
    CeilDivLeast(a, w, CeilDiv(b, w));
  }

  lemma MulMonotone(p: nat, a: nat, b: nat)
    requires a <= b
    ensures p * a <= p * b
  {
    assert p * b == p * a + p * (b - a);
  }

  /** Inside the bucket the previous count weighs at least its `window`-th part. */
  lemma WeightAtLeast(p: nat, r: nat, w: nat)
    requires r < w
    ensures CeilDiv(p, w) <= CeilDiv(p * (w - r), w)
  {
    MulMonotone(p, 1, w - r);
    CeilDivMonotone(p, p * (w - r), w);
  }

  /** One more previous admission adds at most one to the weighted count. */
  lemma CeilDivGrowth(p: nat, l: nat, w: nat)
    requires w > 0 && p <= l
    ensures CeilDiv(p, w) <= CeilDiv(l, w)
    ensures p - CeilDiv(p, w) <= l - CeilDiv(l, w)
  {
    CeilDivMonotone(p, l, w);
    CeilDivBounds(p, w);
    var q := CeilDiv(p, w) + (l - p);
    assert q * w == CeilDiv(p, w) * w + (l - p) * w;
    MulMonotone(l - p, 1, w);
    CeilDivLeast(l, w, q);
  }

  lemma CeilDivPositive(p: nat, w: nat)
    requires w > 0
    ensures p >= 1 <==> CeilDiv(p, w) >= 1
    ensures 1 <= p <= w ==> CeilDiv(p, w) == 1
  {
    CeilDivBounds(p, w);
    if p == 0 {
      CeilDivLeast(0, w, 0);
    } else {
      MulCancel(0, CeilDiv(p, w), w);
      if p <= w { CeilDivLeast(p, w, 1); }
    }
  }

  // ----------------------------------------------------------- reals and rounding

  lemma CeilIs(x: real, n: int)
    requires (n - 1) as real < x <= n as real
    ensures Ceil(x) == n
  {}

  lemma CeilBounds(x: real)
    ensures (Ceil(x) - 1) as real < x <= Ceil(x) as real
  {}

  lemma ExactProductIs(p: nat, r: nat, w: nat)
    requires r < w
    ensures ExactProduct(p, r, w) * w as real == (p * (w - r)) as real
  {
    var wr, rr, pr := w as real, r as real, p as real;
    assert (1.0 - rr / wr) * wr == wr - (rr / wr) * wr;
    assert (rr / wr) * wr == rr;
    assert pr * (1.0 - rr / wr) * wr == pr * ((1.0 - rr / wr) * wr);
    assert (p * (w - r)) as real == pr * (wr - rr);
  }

  lemma RealScale(a: real, b: real, w: real)
    requires w > 0.0 && a < b
    ensures a * w < b * w
  {
    assert (b - a) * w > 0.0;
    assert b * w == a * w + (b - a) * w;
  }

  lemma RealScaleWeak(a: real, b: real, w: real)
    requires w > 0.0 && a <= b
    ensures a * w <= b * w
  {
    if a < b {
      RealScale(a, b, w);
    }
  }

  lemma RealUnscale(a: real, b: real, w: real)
    requires w > 0.0 && a * w < b * w
    ensures a < b
  {
    if b <= a {
      RealScaleWeak(b, a, w);
    }
  }

  lemma ScaledWhole(c: int, w: nat)
    ensures c as real * w as real == (c * w) as real
  {}

  lemma InverseTimes(w: real)
    requires w > 0.0
    ensures (1.0 / w) * w == 1.0 && (-1.0 / w) * w == -1.0
  {}

  lemma RealDistribute(y: real, x: real, w: real)
    ensures (y - x) * w == y * w - x * w
  {}

  /** A product within 1/w of a/w, scaled by w. */
  lemma FaithfulScaled(x: real, y: real, a: nat, w: nat)
    requires w > 0 && x * w as real == a as real
    requires -1.0 / w as real < y - x < 1.0 / w as real
    ensures a as real - 1.0 < y * w as real < a as real + 1.0
  {
    var wr := w as real;
    RealScale(-1.0 / wr, y - x, wr);
    RealScale(y - x, 1.0 / wr, wr);
    InverseTimes(wr);
    RealDistribute(y, x, wr);
  }

  /** Rounding cannot loosen the limiter: the computed ceiling is the exact one, or one more. */
  lemma RoundedCeiling(f: Product, p: nat, r: nat, w: nat)
    requires r < w && FaithfulAt(f, p, r, w)
    ensures CeilDiv(p * (w - r), w) <= Ceil(f(p, r, w)) <= CeilDiv(p * (w - r), w) + 1
    ensures p == 0 ==> Ceil(f(p, r, w)) == 0
    ensures p * (w - r) % w != 0 ==> Ceil(f(p, r, w)) == CeilDiv(p * (w - r), w)
  {
    ExactProductIs(p, r, w);
    FaithfulScaled(ExactProduct(p, r, w), f(p, r, w), p * (w - r), w);
    ScaledCeiling(f(p, r, w), p * (w - r), w);
  }

  lemma ScaledCeiling(y: real, a: nat, w: nat)
    requires w > 0 && a as real - 1.0 < y * w as real < a as real + 1.0
    ensures CeilDiv(a, w) <= Ceil(y) <= CeilDiv(a, w) + 1
    ensures a % w != 0 ==> Ceil(y) == CeilDiv(a, w)
  {
    var c := Ceil(y);
    CeilBounds(y);
    RealScale((c - 1) as real, y, w as real);
    ScaledWhole(c - 1, w);
    ScaledWhole(c, w);
    RealScaleWeak(y, c as real, w as real);
    CeilingFromScaled(a, w, c);
  }

  lemma CeilingFromScaled(a: nat, w: nat, c: int)
    requires w > 0 && (c - 1) * w <= a <= c * w
    ensures CeilDiv(a, w) <= c <= CeilDiv(a, w) + 1
    ensures a % w != 0 ==> c == CeilDiv(a, w)
  {
    var q := CeilDiv(a, w);
    CeilDivLeast(a, w, c);
    CeilDivBounds(a, w);
    Distribute(q, 1, w);
    if (c - 1) * w < (q + 1) * w {
      MulCancel(c - 1, q + 1, w);
    }
    if c == q + 1 {
      MultipleHasNoRest(a, q, w);
    }
  }

  lemma MultipleHasNoRest(a: nat, q: nat, w: nat)
    requires w > 0 && a == q * w
    ensures a % w == 0 && a / w == q
  {
    DivMod(a, w);
    var d := a / w;
    assert w * d == d * w;
    Distribute(d, 1, w);
    MulCancel(q, d + 1, w);
    Distribute(q, 1, w);
    MulCancel(d, q + 1, w);
  }

  lemma CeilingOfScaled(x: real, a: int, q: int, w: nat)
    requires w > 0 && x * w as real == a as real
    requires (q - 1) * w < a <= q * w
    ensures Ceil(x) == q
  {
    ScaledWhole(q - 1, w);
    ScaledWhole(q, w);
    RealUnscale((q - 1) as real, x, w as real);
    if q as real < x {
      RealScale(q as real, x, w as real);
    }
    CeilIs(x, q);
  }

  /** The exact product's ceiling is the integer formula. */
  lemma ExactCeiling(p: nat, r: nat, w: nat)
    requires r < w
    ensures Ceil(ExactProduct(p, r, w)) == CeilDiv(p * (w - r), w)
  {
    var q: int := CeilDiv(p * (w - r), w);
    ExactProductIs(p, r, w);
    CeilDivBounds(p * (w - r), w);
    Distribute(q, -1, w);
    CeilingOfScaled(ExactProduct(p, r, w), p * (w - r), q, w);
  }

  lemma OverPositive(w: nat)
    requires w > 0
    ensures 1.0 / w as real > 0.0 && -1.0 / w as real < 0.0
  {}
}

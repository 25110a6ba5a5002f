/** Range re-mapping: the affine interpolation that every per-ring parameter of
    the concentric-circles layout is derived from. */
module NumUtils {

  /** True when `x` lies in the closed interval spanned by `a` and `b`,
      whichever of the two is larger. */
  predicate Between(x: real, a: real, b: real)
  {
    if a <= b then a <= x <= b else b <= x <= a
  }

  /** Re-maps `value` from the range [oldStart, oldEnd] to [newStart, newEnd].
      There is no clamping; the range must not be degenerate, since the
      formula divides by its width. */
  function Remap(value: real, oldStart: real, oldEnd: real, newStart: real, newEnd: real): (r: real)
    requires oldEnd != oldStart
    ensures value == oldStart ==> r == newStart
  {
    ((value - oldStart) * (newEnd - newStart)) / (oldEnd - oldStart) + newStart
  }

  /** The end of the old range maps to the end of the new one. */
  lemma RemapReachesEnd(oldStart: real, oldEnd: real, newStart: real, newEnd: real)
    requires oldEnd != oldStart
    ensures Remap(oldEnd, oldStart, oldEnd, newStart, newEnd) == newEnd
  {
    var w, d := oldEnd - oldStart, newEnd - newStart;
    var q := (w * d) / w;
    assert q * w == d * w;
    MulCancel(q, d, w);
  }

  /** The position of `value` in the old range as a fraction of its width. */
  function Fraction(value: real, oldStart: real, oldEnd: real): real
    requires oldEnd != oldStart
  {
    (value - oldStart) / (oldEnd - oldStart)
  }

  /** Remap moves from newStart towards newEnd by the fraction `value` has
      covered of the old range: the map is affine. */
  lemma RemapIsAffine(value: real, oldStart: real, oldEnd: real, newStart: real, newEnd: real)
    requires oldEnd != oldStart
    ensures Remap(value, oldStart, oldEnd, newStart, newEnd)
            == newStart + Fraction(value, oldStart, oldEnd) * (newEnd - newStart)
  {
    var w := oldEnd - oldStart;
    var k := Fraction(value, oldStart, oldEnd);
    assert k * w == value - oldStart;
    var r := Remap(value, oldStart, oldEnd, newStart, newEnd);
    assert (r - newStart) * w == k * w * (newEnd - newStart);
    assert (r - newStart) * w == (k * (newEnd - newStart)) * w;
    MulCancel(r - newStart, k * (newEnd - newStart), w);
  }

  /** Cancelling a non-zero factor on both sides of an equation. */
  lemma MulCancel(x: real, y: real, w: real)
    requires w != 0.0
    requires x * w == y * w
    ensures x == y
  {
    assert (x - y) * w == 0.0;
  }

  /** Division by a non-zero divisor distributes over subtraction. */
  lemma DivSub(a: real, b: real, w: real)
    requires w != 0.0
    ensures (a - b) / w == a / w - b / w
  {
    assert (a / w) * w == a && (b / w) * w == b && ((a - b) / w) * w == a - b;
    assert (a / w - b / w) * w == a - b;
    MulCancel((a - b) / w, a / w - b / w, w);
  }

  /** Dividing by a larger positive number gives a smaller quotient. */
  lemma DivAntitone(a: real, x: real, y: real)
    requires a >= 0.0 && 0.0 < x <= y
    ensures a / y <= a / x
  {
    var q, r := a / x, a / y;
    assert q * x == a && r * y == a;
    MulNonNegative(r, y - x);
    assert r * (y - x) == r * y - r * x;
    assert (q - r) * x == q * x - r * x;
    ProductSign(q - r, x);
  }

  /** A product with a positive factor has the sign of the other factor. */
  lemma ProductSign(b: real, x: real)
    requires x > 0.0 && b * x >= 0.0
    ensures b >= 0.0
  {
  }

  /** The product of two non-negative numbers is non-negative. */
  lemma MulNonNegative(a: real, b: real)
    requires a >= 0.0 && b >= 0.0
    ensures a * b >= 0.0
  {
  }

  /** The product of two positive numbers is positive. */
  lemma MulPositive(a: real, b: real)
    requires a > 0.0 && b > 0.0
    ensures a * b > 0.0
  {
  }

  /** A degenerate target range maps every value to the same point. */
  lemma RemapConstantTarget(value: real, oldStart: real, oldEnd: real, c: real)
    requires oldEnd != oldStart
    ensures Remap(value, oldStart, oldEnd, c, c) == c
  {
  }

  /** Equal steps in the old range give equal steps in the new one. */
  lemma RemapDifference(x: real, y: real, oldStart: real, oldEnd: real, newStart: real, newEnd: real)
    requires oldEnd != oldStart
    ensures Remap(y, oldStart, oldEnd, newStart, newEnd) - Remap(x, oldStart, oldEnd, newStart, newEnd)
            == Fraction(y, oldStart, oldEnd) * (newEnd - newStart) - Fraction(x, oldStart, oldEnd) * (newEnd - newStart)
  {
    RemapIsAffine(x, oldStart, oldEnd, newStart, newEnd);
    RemapIsAffine(y, oldStart, oldEnd, newStart, newEnd);
  }

  /** Inside an increasing old range the fraction lies in [0, 1]. */
  lemma FractionInUnit(value: real, oldStart: real, oldEnd: real)
    requires oldStart < oldEnd && oldStart <= value <= oldEnd
    ensures 0.0 <= Fraction(value, oldStart, oldEnd) <= 1.0
  {
    var w := oldEnd - oldStart;
    var k := Fraction(value, oldStart, oldEnd);
    assert k * w == value - oldStart;
    assert (oldEnd - value) / w >= 0.0;
    DivSub(w, value - oldStart, w);
    assert w / w == 1.0;
  }

  /** The fraction grows with the value in an increasing old range. */
  lemma FractionMonotone(x: real, y: real, oldStart: real, oldEnd: real)
    requires oldStart < oldEnd && x <= y
    ensures Fraction(x, oldStart, oldEnd) <= Fraction(y, oldStart, oldEnd)
  {
    var w := oldEnd - oldStart;
    var kx, ky := Fraction(x, oldStart, oldEnd), Fraction(y, oldStart, oldEnd);
    assert kx * w == x - oldStart && ky * w == y - oldStart;
    if kx > ky { assert kx * w > ky * w; }
  }

  /** A value of the old range maps into the new range, whichever way it runs. */
  lemma RemapBetween(value: real, oldStart: real, oldEnd: real, newStart: real, newEnd: real)
    requires oldStart < oldEnd && oldStart <= value <= oldEnd
    ensures Between(Remap(value, oldStart, oldEnd, newStart, newEnd), newStart, newEnd)
  {
    RemapIsAffine(value, oldStart, oldEnd, newStart, newEnd);
    FractionInUnit(value, oldStart, oldEnd);
    var k := Fraction(value, oldStart, oldEnd);
    var d := newEnd - newStart;
    assert d - k * d == (1.0 - k) * d;
    if d >= 0.0 {
      MulNonNegative(k, d);
      MulNonNegative(1.0 - k, d);
    } else {
      MulNonNegative(k, -d);
      MulNonNegative(1.0 - k, -d);
      assert k * -d == -(k * d) && (1.0 - k) * -d == -((1.0 - k) * d);
    }
  }

  /** On an increasing old range, Remap is non-decreasing when the new range
      runs upwards and non-increasing when it runs downwards. */
  lemma RemapMonotone(x: real, y: real, oldStart: real, oldEnd: real, newStart: real, newEnd: real)
    requires oldStart < oldEnd && x <= y
    ensures newStart <= newEnd ==> Remap(x, oldStart, oldEnd, newStart, newEnd) <= Remap(y, oldStart, oldEnd, newStart, newEnd)
    ensures newEnd <= newStart ==> Remap(y, oldStart, oldEnd, newStart, newEnd) <= Remap(x, oldStart, oldEnd, newStart, newEnd)
  {
    RemapDifference(x, y, oldStart, oldEnd, newStart, newEnd);
    FractionMonotone(x, y, oldStart, oldEnd);
    var kx, ky := Fraction(x, oldStart, oldEnd), Fraction(y, oldStart, oldEnd);
    var d := newEnd - newStart;
    assert ky * d - kx * d == (ky - kx) * d;
    if d >= 0.0 {
      MulNonNegative(ky - kx, d);
    } else {
      MulNonNegative(ky - kx, -d);
      assert (ky - kx) * -d == -((ky - kx) * d);
    }
  }

  /** Remap is non-increasing over the old range exactly when the new range
      does not run upwards. */
  lemma RemapNonIncreasingIff(oldStart: real, oldEnd: real, newStart: real, newEnd: real)
    requires oldStart < oldEnd
    ensures (forall x, y :: oldStart <= x <= y <= oldEnd ==>
               Remap(y, oldStart, oldEnd, newStart, newEnd) <= Remap(x, oldStart, oldEnd, newStart, newEnd))
            <==> newEnd <= newStart
  {
    if newEnd <= newStart {
      forall x, y | oldStart <= x <= y <= oldEnd
        ensures Remap(y, oldStart, oldEnd, newStart, newEnd) <= Remap(x, oldStart, oldEnd, newStart, newEnd)
      {
        RemapMonotone(x, y, oldStart, oldEnd, newStart, newEnd);
      }
    } else {
      assert Remap(oldEnd, oldStart, oldEnd, newStart, newEnd) > Remap(oldStart, oldStart, oldEnd, newStart, newEnd);
    }
  }

  /** No clamping: past the end of an increasing old range, the value lands
      past newEnd on the far side from newStart. */
  lemma RemapUnclamped(value: real, oldStart: real, oldEnd: real, newStart: real, newEnd: real)
    requires oldStart < oldEnd < value && newStart != newEnd
    ensures var r := Remap(value, oldStart, oldEnd, newStart, newEnd);
            if newStart < newEnd then r > newEnd else r < newEnd
  {
    RemapIsAffine(value, oldStart, oldEnd, newStart, newEnd);
    var w := oldEnd - oldStart;
    var k := Fraction(value, oldStart, oldEnd);
    assert k * w == value - oldStart;
    assert (value - oldEnd) / w > 0.0;
    DivSub(value - oldStart, w, w);
    assert w / w == 1.0;
    var d := newEnd - newStart;
    MulPositive(k - 1.0, if d > 0.0 then d else -d);
  }

  /** No clamping below either: before the start of an increasing old range,
      the value lands before newStart on the far side from newEnd. */
  lemma RemapUnclampedBelow(value: real, oldStart: real, oldEnd: real, newStart: real, newEnd: real)
    requires value < oldStart < oldEnd && newStart != newEnd
    ensures var r := Remap(value, oldStart, oldEnd, newStart, newEnd);
            if newStart < newEnd then r < newStart else r > newStart
  {
    RemapIsAffine(value, oldStart, oldEnd, newStart, newEnd);
    var k := Fraction(value, oldStart, oldEnd);
    assert k < 0.0;
    var d := newEnd - newStart;
    MulPositive(-k, if d > 0.0 then d else -d);
  }

  /** A downward target range no wider than the old range falls by at most
      as much as the value rises. */
  lemma RemapStepBound(x: real, y: real, oldStart: real, oldEnd: real, newStart: real, newEnd: real)
    requires oldStart < oldEnd && x <= y
    requires 0.0 <= newStart - newEnd <= oldEnd - oldStart
    ensures Remap(x, oldStart, oldEnd, newStart, newEnd) - Remap(y, oldStart, oldEnd, newStart, newEnd) <= y - x
  {
    var w, dt := oldEnd - oldStart, newStart - newEnd;
    var kx, ky := Fraction(x, oldStart, oldEnd), Fraction(y, oldStart, oldEnd);
    RemapDifference(x, y, oldStart, oldEnd, newStart, newEnd);
    FractionMonotone(x, y, oldStart, oldEnd);
    assert ky * (newEnd - newStart) - kx * (newEnd - newStart) == -((ky - kx) * dt);
    assert kx * w == x - oldStart && ky * w == y - oldStart;
    assert (ky - kx) * w == y - x;
    MulNonNegative(ky - kx, w - dt);
    assert (ky - kx) * (w - dt) == (ky - kx) * w - (ky - kx) * dt;
  }

  /** Re-mapping two target ranges and adding the results is re-mapping
      their sum. */
  lemma RemapAdd(value: real, oldStart: real, oldEnd: real, a0: real, a1: real, b0: real, b1: real)
    requires oldEnd != oldStart
    ensures Remap(value, oldStart, oldEnd, a0, a1) + Remap(value, oldStart, oldEnd, b0, b1)
            == Remap(value, oldStart, oldEnd, a0 + b0, a1 + b1)
  {
    RemapIsAffine(value, oldStart, oldEnd, a0, a1);
    RemapIsAffine(value, oldStart, oldEnd, b0, b1);
    RemapIsAffine(value, oldStart, oldEnd, a0 + b0, a1 + b1);
  }
}

/**
  Laws that relate the operations of `Vec2` to one another: inverses,
  symmetries, what repeating an operation does, and the consequences of the
  falsy-multiplier rule for `normalize` and `truncate`.
 */
module Vec2Laws {

  import opened RealArith
  import opened RealSqrt
  import opened Vec2

  // ---------------------------------------------------------------------------
  // add, substract, multiply

  /** Subtracting what was added gives the original vector back. */
  lemma SubstractUndoesAdd(a: Vec, b: Vec)
    ensures Substract(Add(a, b), b) == a
  {}

  lemma AddCommutes(a: Vec, b: Vec)
    ensures Add(a, b) == Add(b, a)
  {}

  /** Component-wise multiplication by (k, k) is scaling by k. */
  lemma ComponentwiseByUniformIsScale(a: Vec, k: real)
    ensures MultiplyBy(a, Components(Vec(k, k))) == MultiplyBy(a, Scalar(k))
  {}

  /** Component-wise multiplication does not depend on which vector is the receiver. */
  lemma ComponentwiseCommutes(a: Vec, b: Vec)
    ensures MultiplyBy(a, Components(b)) == MultiplyBy(b, Components(a))
  {}

  // ---------------------------------------------------------------------------
  // orthogonal, distance

  /** Two quarter turns are a half turn. */
  lemma OrthogonalTwiceNegates(a: Vec)
    ensures Orthogonal(Orthogonal(a)) == Scale(a, -1.0)
  {}

  lemma DistanceSquaredSymmetric(a: Vec, b: Vec)
    ensures DistanceSquared(a, b) == DistanceSquared(b, a)
  {
    SquareOfNegation(a.x - b.x);
    SquareOfNegation(a.y - b.y);
    assert b.x - a.x == -(a.x - b.x);
    assert b.y - a.y == -(a.y - b.y);
  }

  lemma DistanceSymmetric(a: Vec, b: Vec, sqrt: real -> real)
    requires IsSqrt(sqrt)
    ensures Distance(a, b, sqrt) == Distance(b, a, sqrt)
  {
    DistanceSquaredSymmetric(a, b);
    SquareInjective(Distance(a, b, sqrt), Distance(b, a, sqrt));
  }

  /** Moving both points by the same vector leaves their distance unchanged. */
  lemma DistanceSquaredTranslation(a: Vec, b: Vec, c: Vec)
    ensures DistanceSquared(Add(a, c), Add(b, c)) == DistanceSquared(a, b)
  {
    assert Substract(Add(b, c), Add(a, c)) == Substract(b, a);
  }

  // ---------------------------------------------------------------------------
  // normalize

  lemma ScaleByOne(a: Vec)
    ensures Scale(a, 1.0) == a
  {}

  /** `normalize(0)` behaves as `normalize()`: 0 is falsy and replaced by 1. */
  lemma NormalizeZeroMultiplierIsDefault(a: Vec, sqrt: real -> real)
    requires IsSqrt(sqrt)
    ensures Normalize(a, Some(0.0), sqrt) == Normalize(a, None, sqrt)
  {
    assert EffectiveMultiplier(Some(0.0)) == EffectiveMultiplier(None);
  }

  /** `normalize(m)` is the unit vector `normalize()` multiplied by the effective multiplier. */
  lemma NormalizeIsUnitTimesMultiplier(a: Vec, m: Option<real>, sqrt: real -> real)
    requires IsSqrt(sqrt)
    ensures Normalize(a, m, sqrt) == Scale(Normalize(a, None, sqrt), EffectiveMultiplier(m))
  {
    if a != Zero {
      var mag := Magnitude(a, sqrt);
      var k := EffectiveMultiplier(m);
      assert EffectiveMultiplier(None) == 1.0;
      NormalizeIsScale(a, m, sqrt);
      NormalizeIsScale(a, None, sqrt);
      ScaleOfQuotient(a, mag, k);
    } else {
      ScaleOfZero(EffectiveMultiplier(m));
    }
  }

  lemma ScaleOfZero(k: real)
    ensures Scale(Zero, k) == Zero
  {}

  lemma ScaleOfQuotient(a: Vec, mag: real, k: real)
    requires mag != 0.0
    ensures Scale(Scale(a, 1.0 / mag), k) == Scale(a, k / mag)
  {
    ScaleScale(a, 1.0 / mag, k);
    assert 1.0 / mag * k == k / mag;
  }

  /** Normalising a second time changes nothing. */
  lemma NormalizeIdempotent(a: Vec, sqrt: real -> real)
    requires IsSqrt(sqrt)
    ensures Normalize(Normalize(a, None, sqrt), None, sqrt) == Normalize(a, None, sqrt)
  {
    if a != Zero {
      var u := Normalize(a, None, sqrt);
      NormalizeToUnit(a, sqrt);
      UnitIsFixed(u, sqrt);
    }
  }

  /** A unit vector is its own normalisation. */
  lemma UnitIsFixed(u: Vec, sqrt: real -> real)
    requires IsSqrt(sqrt)
    requires MagSq(u) == 1.0
    ensures Normalize(u, None, sqrt) == u
  {
    SqrtOfOne(sqrt);
    assert Magnitude(u, sqrt) == 1.0;
    NormalizeIsScale(u, None, sqrt);
    assert EffectiveMultiplier(None) / Magnitude(u, sqrt) == 1.0;
    ScaleByOne(u);
  }

  // ---------------------------------------------------------------------------
  // truncate

  /** `truncate(0)` is `normalize()`: it turns every non-zero vector into a unit vector. */
  lemma TruncateToZeroIsNormalize(a: Vec, sqrt: real -> real)
    requires IsSqrt(sqrt)
    ensures Truncate(a, 0.0, sqrt) == Normalize(a, None, sqrt)
  {
    NormalizeZeroMultiplierIsDefault(a, sqrt);
  }

  /** For a positive bound the result is never longer than the bound. */
  lemma TruncateBounded(a: Vec, max: real, sqrt: real -> real)
    requires IsSqrt(sqrt)
    requires 0.0 < max
    ensures Magnitude(Truncate(a, max, sqrt), sqrt) <= max
  {
    if max < Magnitude(a, sqrt) {
      LengthOfSquare(Truncate(a, max, sqrt), max, sqrt);
    }
  }

  /** A vector whose squared length is max² has length max. */
  lemma LengthOfSquare(t: Vec, max: real, sqrt: real -> real)
    requires IsSqrt(sqrt)
    requires 0.0 <= max && MagSq(t) == Square(max)
    ensures Magnitude(t, sqrt) == max
  {
    SqrtOfSquare(sqrt, max);
  }

  /** With a non-negative bound, truncating twice is truncating once. */
  lemma TruncateIdempotent(a: Vec, max: real, sqrt: real -> real)
    requires IsSqrt(sqrt)
    requires 0.0 <= max
    ensures Truncate(Truncate(a, max, sqrt), max, sqrt) == Truncate(a, max, sqrt)
  {
    var t := Truncate(a, max, sqrt);
    if max < Magnitude(a, sqrt) {
      if 0.0 < max {
        LengthOfSquare(t, max, sqrt);
      } else {
        TruncateToZeroIsNormalize(a, sqrt);
        TruncateToZeroIsNormalize(t, sqrt);
        NormalizeIdempotent(a, sqrt);
      }
    }
  }

  /**
    With a negative bound `truncate` is not idempotent: every non-zero vector
    is flipped to the opposite side on each call.
   */
  lemma TruncateNegativeFlips(a: Vec, max: real, sqrt: real -> real)
    requires IsSqrt(sqrt)
    requires max < 0.0 && a != Zero
    ensures Truncate(Truncate(a, max, sqrt), max, sqrt) != Truncate(a, max, sqrt)
  {
    var t := Truncate(a, max, sqrt);
    SquarePositive(max);
    assert t != Zero;
    assert Dot(t, t) == MagSq(t);
  }

  // ---------------------------------------------------------------------------
  // dot

  /** The normalised dot product of a non-zero vector with itself is 1. */
  lemma NormalizedDotSelf(a: Vec, sqrt: real -> real)
    requires IsSqrt(sqrt)
    requires a != Zero
    ensures NormalizedDot(a, a, sqrt) == 1.0
  {
    var u := Normalize(a, None, sqrt);
    NormalizeToUnit(a, sqrt);
    assert Dot(u, u) == MagSq(u);
  }

  lemma NormalizedDotSymmetric(a: Vec, b: Vec, sqrt: real -> real)
    requires IsSqrt(sqrt)
    ensures NormalizedDot(a, b, sqrt) == NormalizedDot(b, a, sqrt)
  {}

  // ---------------------------------------------------------------------------
  // Worked values

  /** The points (0, 0) and (3, 4) are 5 apart, 25 in the squared domain. */
  lemma DistanceExample(sqrt: real -> real)
    requires IsSqrt(sqrt)
    ensures DistanceSquared(Zero, Vec(3.0, 4.0)) == 25.0
    ensures Distance(Zero, Vec(3.0, 4.0), sqrt) == 5.0
  {
    LengthOfSquare(Vec(3.0, 4.0), 5.0, sqrt);
  }

  /** (5, 0) normalises to (1, 0), and to (2, 0) with multiplier 2. */
  lemma NormalizeExample(sqrt: real -> real)
    requires IsSqrt(sqrt)
    ensures Normalize(Vec(5.0, 0.0), None, sqrt) == Vec(1.0, 0.0)
    ensures Normalize(Vec(5.0, 0.0), Some(2.0), sqrt) == Vec(2.0, 0.0)
  {
    assert EffectiveMultiplier(None) == 1.0 && EffectiveMultiplier(Some(2.0)) == 2.0;
    assert Scale(Vec(5.0, 0.0), 1.0 / 5.0) == Vec(1.0, 0.0);
    assert Scale(Vec(5.0, 0.0), 2.0 / 5.0) == Vec(2.0, 0.0);
    NormalizeOfLength(Vec(5.0, 0.0), 5.0, None, sqrt);
    NormalizeOfLength(Vec(5.0, 0.0), 5.0, Some(2.0), sqrt);
  }

  /** Normalising a vector of known positive length `len` scales it by multiplier / len. */
  lemma NormalizeOfLength(a: Vec, len: real, m: Option<real>, sqrt: real -> real)
    requires IsSqrt(sqrt)
    requires 0.0 < len && MagSq(a) == Square(len)
    ensures Normalize(a, m, sqrt) == Scale(a, EffectiveMultiplier(m) / len)
  {
    LengthOfSquare(a, len, sqrt);
    NormalizeIsScale(a, m, sqrt);
  }
}

/**
  The value semantics of the 2-D `Vector` of vector.js.

  A `Vec` is the pair of coordinates a `Vector` object holds at one moment.
  Every static operation of vector.js and the effect of every instance
  operation on its receiver is a pure function here; the object layer in
  module `Vectors` is specified in terms of these functions.
 */
module Vec2 {

  import opened RealArith
  import opened RealSqrt

  /** An argument the caller may leave out (`undefined` in JavaScript). */
  datatype Option<T> = None | Some(value: T)

  datatype Vec = Vec(x: real, y: real)

  const Zero: Vec := Vec(0.0, 0.0)

  /** The argument of instance `multiply`: a number, or another vector for the component-wise product. */
  datatype Operand = Scalar(k: real) | Components(v: Vec)

  /**
    The constructor `new Vector(x, y)`: a coordinate that is not a number
    (left out) becomes 0, any other is kept.
   */
  function New(x: Option<real>, y: Option<real>): (r: Vec)
    ensures x.None? ==> r.x == 0.0
    ensures y.None? ==> r.y == 0.0
    ensures x.Some? ==> r.x == x.value
    ensures y.Some? ==> r.y == y.value
  {
    Vec(if x.Some? then x.value else 0.0, if y.Some? then y.value else 0.0)
  }

  /** Building a vector from another's coordinates copies it; building one from nothing gives the zero vector. */
  lemma NewRoundTrip(v: Vec)
    ensures New(Some(v.x), Some(v.y)) == v
    ensures New(None, None) == Zero
  {}

  // ---------------------------------------------------------------------------
  // Quantities the specifications are written in

  /** `magnitudeSqrt()`: the squared length x² + y². */
  function MagSq(a: Vec): (r: real)
    ensures 0.0 <= r
    ensures r == 0.0 <==> a == Zero
  {
    SumOfSquaresZero(a.x, a.y);
    Square(a.x) + Square(a.y)
  }

  /** The dot product of the coordinates as they are. */
  function Dot(a: Vec, b: Vec): real {
    a.x * b.x + a.y * b.y
  }

  /** The z-component of the cross product; zero exactly when `a` and `b` are parallel. */
  function Cross(a: Vec, b: Vec): real {
    a.x * b.y - a.y * b.x
  }

  // ---------------------------------------------------------------------------
  // Static operations (and the receiver's new value for the instance ones)

  /** `Vector.add(a, b)` and the new value of `a` after `a.add(b)`. */
  function Add(a: Vec, b: Vec): (r: Vec)
    ensures b == Zero ==> r == a
    ensures a == Zero ==> r == b
    ensures a == b ==> r == Scale(a, 2.0)
  {
    Vec(a.x + b.x, a.y + b.y)
  }

  /** `Vector.substract(a, b)` and the new value of `a` after `a.substract(b)`: what added to `b` gives `a`. */
  function Substract(a: Vec, b: Vec): (r: Vec)
    ensures Add(r, b) == a
  {
    Vec(a.x - b.x, a.y - b.y)
  }

  /** `Vector.multiply(a, k)`, and instance `multiply` by a number. */
  function Scale(a: Vec, k: real): (r: Vec)
    ensures k == 1.0 ==> r == a
    ensures k == 0.0 || a == Zero ==> r == Zero
  {
    Vec(a.x * k, a.y * k)
  }

  /** Scaling by `k` multiplies the squared length by k² and stays on the line of `a`, on the side of sign(k). */
  lemma ScaleFacts(a: Vec, k: real)
    ensures MagSq(Scale(a, k)) == Square(k) * MagSq(a)
    ensures Cross(Scale(a, k), a) == 0.0
    ensures Dot(Scale(a, k), a) == k * MagSq(a)
  {
    ScaleMagSq(a, k);
  }

  lemma ScaleMagSq(a: Vec, k: real)
    ensures MagSq(Vec(a.x * k, a.y * k)) == Square(k) * MagSq(a)
  {
    SquareOfProduct(a.x, k);
    SquareOfProduct(a.y, k);
    calc {
      MagSq(Vec(a.x * k, a.y * k));
    ==
      Square(a.x * k) + Square(a.y * k);
    ==
      Square(a.x) * Square(k) + Square(a.y) * Square(k);
    ==
      Square(k) * (Square(a.x) + Square(a.y));
    }
  }

  /**
    `Vector.divide(a, k)`: undoing it with `multiply(k)` gives `a` back, and it
    agrees with instance `divide`, which multiplies by `1/k`.
   */
  function Divide(a: Vec, k: real): (r: Vec)
    requires k != 0.0
    ensures Scale(r, k) == a
    ensures r == Scale(a, 1.0 / k)
  {
    Vec(a.x / k, a.y / k)
  }

  /** The new value of the receiver after instance `multiply(value)`. */
  function MultiplyBy(a: Vec, value: Operand): (r: Vec)
    ensures value.Scalar? ==> r == Scale(a, value.k)
    ensures value.Components? && value.v.x == value.v.y ==> r == Scale(a, value.v.x)
    ensures value.Components? && value.v == Vec(1.0, 1.0) ==> r == a
  {
    match value
    case Scalar(k) => Scale(a, k)
    case Components(b) => Vec(a.x * b.x, a.y * b.y)
  }

  /** `Vector.orthogonal(a)`: `a` turned a quarter turn counter-clockwise. */
  function Orthogonal(a: Vec): (r: Vec)
    ensures Dot(r, a) == 0.0
    ensures MagSq(r) == MagSq(a)
    ensures Cross(a, r) == MagSq(a)
  {
    SquareOfNegation(a.y);
    Vec(-a.y, a.x)
  }

  /** `magnitude()`, with `sqrt` for `Math.sqrt`. */
  function Magnitude(a: Vec, sqrt: real -> real): (r: real)
    requires IsSqrt(sqrt)
    ensures 0.0 <= r && Square(r) == MagSq(a)
    ensures r == 0.0 <==> a == Zero
  {
    SqrtZeroIff(sqrt, MagSq(a));
    sqrt(MagSq(a))
  }

  /** `Vector.distanceSqrt(a, b)`: the squared distance between the two points. */
  function DistanceSquared(a: Vec, b: Vec): (r: real)
    ensures 0.0 <= r
    ensures r == 0.0 <==> a == b
  {
    SubstractZeroIff(b, a);
    MagSq(Substract(b, a))
  }

  lemma SubstractZeroIff(a: Vec, b: Vec)
    ensures Substract(a, b) == Zero <==> a == b
  {
    if Substract(a, b) == Zero {
      assert a.x - b.x == 0.0 && a.y - b.y == 0.0;
    }
  }

  /** `Vector.distance(a, b)`. */
  function Distance(a: Vec, b: Vec, sqrt: real -> real): (r: real)
    requires IsSqrt(sqrt)
    ensures 0.0 <= r && Square(r) == DistanceSquared(a, b)
    ensures r == 0.0 <==> a == b
  {
    SubstractZeroIff(b, a);
    Magnitude(Substract(b, a), sqrt)
  }

  // ---------------------------------------------------------------------------
  // normalize, truncate, normal, dot

  /** JavaScript truthiness of the multiplier of `normalize`: absent and 0 are falsy. */
  predicate Truthy(m: Option<real>) {
    m.Some? && m.value != 0.0
  }

  /** `multiplier ? multiplier : 1`. */
  function EffectiveMultiplier(m: Option<real>): (r: real)
    ensures r != 0.0
    ensures Truthy(m) ==> r == m.value
    ensures !Truthy(m) ==> r == 1.0
  {
    if Truthy(m) then m.value else 1.0
  }

  /**
    Instance `normalize(m)`: a zero-length vector is left exactly as it is
    (whatever `m`); any other is turned into a vector of length |m'| along the
    same line, pointing the same way when m' > 0 and the opposite way when
    m' < 0, where m' is `m` with a falsy value replaced by 1.
   */
  function Normalize(a: Vec, m: Option<real>, sqrt: real -> real): (r: Vec)
    requires IsSqrt(sqrt)
    ensures a == Zero ==> r == a
    ensures a != Zero ==> MagSq(r) == Square(EffectiveMultiplier(m))
    ensures Cross(r, a) == 0.0
    ensures a != Zero ==> (0.0 < Dot(r, a) <==> 0.0 < EffectiveMultiplier(m))
    ensures a != Zero ==> (Dot(r, a) < 0.0 <==> EffectiveMultiplier(m) < 0.0)
  {
    var multiplier := EffectiveMultiplier(m);
    var mag := Magnitude(a, sqrt);
    if mag == 0.0 then
      a
    else
      NormalizeScales(a, mag, multiplier);
      MultiplyBy(Vec(a.x / mag, a.y / mag), Scalar(multiplier))
  }

  lemma ScaleScale(a: Vec, k: real, j: real)
    ensures Scale(Scale(a, k), j) == Scale(a, k * j)
  {
    assert a.x * k * j == a.x * (k * j);
    assert a.y * k * j == a.y * (k * j);
  }

  /** Dividing by the length and multiplying by `k` is one scaling by k / length, and its sign is that of `k`. */
  lemma NormalizeScales(a: Vec, mag: real, k: real)
    requires 0.0 < mag && Square(mag) == MagSq(a)
    requires k != 0.0
    ensures Scale(Vec(a.x / mag, a.y / mag), k) == Scale(a, k / mag)
    ensures MagSq(Scale(a, k / mag)) == Square(k)
    ensures 0.0 < Dot(Scale(a, k / mag), a) <==> 0.0 < k
    ensures Dot(Scale(a, k / mag), a) < 0.0 <==> k < 0.0
  {
    DivideThenScale(a, mag, k);
    ScaleToLength(a, mag, k);
    ScaleFacts(a, k / mag);
    SquarePositive(mag);
    QuotientSign(k, mag, MagSq(a));
  }

  lemma DivideThenScale(a: Vec, mag: real, k: real)
    requires mag != 0.0
    ensures Scale(Vec(a.x / mag, a.y / mag), k) == Scale(a, k / mag)
  {
    assert Vec(a.x / mag, a.y / mag) == Divide(a, mag);
    ScaleScale(a, 1.0 / mag, k);
    assert 1.0 / mag * k == k / mag;
  }

  lemma ScaleToLength(a: Vec, mag: real, k: real)
    requires 0.0 < mag && Square(mag) == MagSq(a)
    ensures MagSq(Scale(a, k / mag)) == Square(k)
  {
    ScaleFacts(a, k / mag);
    SquareOfQuotient(k, mag);
  }

  /** The sign of (k / m) * q, for positive m and q, is the sign of k. */
  lemma QuotientSign(k: real, m: real, q: real)
    requires 0.0 < m && 0.0 < q
    ensures 0.0 < k / m * q <==> 0.0 < k
    ensures k / m * q < 0.0 <==> k < 0.0
  {
    var c := k / m;
    if 0.0 < k {
      MulPos(c, q);
    } else if k < 0.0 {
      MulPos(-c, q);
      assert c * q == -((-c) * q);
    }
  }

  /** A non-zero vector is normalised by one scaling, by the effective multiplier over its length. */
  lemma NormalizeIsScale(a: Vec, m: Option<real>, sqrt: real -> real)
    requires IsSqrt(sqrt)
    requires a != Zero
    ensures Normalize(a, m, sqrt) == Scale(a, EffectiveMultiplier(m) / Magnitude(a, sqrt))
  {
    DivideThenScale(a, Magnitude(a, sqrt), EffectiveMultiplier(m));
  }

  /**
    Instance `truncate(max)`: a vector no longer than `max` is left as it is;
    a longer one is normalised with multiplier `max`. For 0 < max this caps the
    length at `max` keeping the direction; `max` = 0 is falsy, so a non-zero
    vector becomes a unit vector; a negative `max` gives length |max| pointing
    the opposite way.
   */
  function Truncate(a: Vec, max: real, sqrt: real -> real): (r: Vec)
    requires IsSqrt(sqrt)
    ensures Magnitude(a, sqrt) <= max ==> r == a
    ensures a == Zero ==> r == a
    ensures 0.0 < max < Magnitude(a, sqrt) ==>
      MagSq(r) == Square(max) && Cross(r, a) == 0.0 && 0.0 < Dot(r, a)
    ensures max == 0.0 && a != Zero ==>
      MagSq(r) == 1.0 && Cross(r, a) == 0.0 && 0.0 < Dot(r, a)
    ensures max < 0.0 && a != Zero ==>
      MagSq(r) == Square(max) && Cross(r, a) == 0.0 && Dot(r, a) < 0.0
  {
    if Magnitude(a, sqrt) > max then Normalize(a, Some(max), sqrt) else a
  }

  /**
    `Vector.normal(a, b)`: for distinct points, the unit vector perpendicular
    to the segment from `a` to `b`, on its left; for equal points the zero
    vector.
   */
  function Normal(a: Vec, b: Vec, sqrt: real -> real): (r: Vec)
    requires IsSqrt(sqrt)
    ensures a == b ==> r == Zero
    ensures a != b ==>
      MagSq(r) == 1.0 && Dot(r, Substract(b, a)) == 0.0 && 0.0 < Cross(Substract(b, a), r)
  {
    var d := Substract(b, a);
    var t := Normalize(d, None, sqrt);
    SubstractZeroIff(b, a);
    OrthogonalSwapsDotAndCross(t, d);
    Orthogonal(t)
  }

  /** `Vector.normal(a, b)` is the quarter turn of the normalised direction from `a` to `b`. */
  lemma NormalIsOrthogonalOfDirection(a: Vec, b: Vec, sqrt: real -> real)
    requires IsSqrt(sqrt)
    ensures Normal(a, b, sqrt) == Orthogonal(Normalize(Substract(b, a), None, sqrt))
  {}

  /** Turning `t` a quarter turn trades its cross and dot products with `d`. */
  lemma OrthogonalSwapsDotAndCross(t: Vec, d: Vec)
    ensures Dot(Orthogonal(t), d) == Cross(t, d)
    ensures Cross(d, Orthogonal(t)) == Dot(t, d)
  {}

  /**
    `Vector.dot(a, b)` as a number: the dot product of the two normalised
    vectors, which is the cosine of the angle between them (0 when either is
    the zero vector).
   */
  function NormalizedDot(a: Vec, b: Vec, sqrt: real -> real): (r: real)
    requires IsSqrt(sqrt)
    ensures -1.0 <= r <= 1.0
    ensures a == Zero || b == Zero ==> r == 0.0
    ensures a != Zero && b != Zero ==> r * Magnitude(a, sqrt) * Magnitude(b, sqrt) == Dot(a, b)
  {
    NormalizedDotBounds(a, b, sqrt);
    DotOfNormalized(a, b, sqrt);
    Dot(Normalize(a, None, sqrt), Normalize(b, None, sqrt))
  }

  lemma NormalizedDotOfNormalized(a: Vec, b: Vec, sqrt: real -> real)
    requires IsSqrt(sqrt)
    ensures NormalizedDot(a, b, sqrt) == Dot(Normalize(a, None, sqrt), Normalize(b, None, sqrt))
  {}

  lemma NormalizedDotBounds(a: Vec, b: Vec, sqrt: real -> real)
    requires IsSqrt(sqrt)
    ensures -1.0 <= Dot(Normalize(a, None, sqrt), Normalize(b, None, sqrt)) <= 1.0
    ensures a == Zero || b == Zero ==> Dot(Normalize(a, None, sqrt), Normalize(b, None, sqrt)) == 0.0
  {
    var u := Normalize(a, None, sqrt);
    var v := Normalize(b, None, sqrt);
    if a != Zero && b != Zero {
      NormalizeToUnit(a, sqrt);
      NormalizeToUnit(b, sqrt);
      DotOfUnits(u, v);
    } else {
      DotWithZero(u, v);
    }
  }

  lemma DotWithZero(u: Vec, v: Vec)
    ensures u == Zero || v == Zero ==> Dot(u, v) == 0.0
  {}

  /** Without a multiplier, `normalize` makes a non-zero vector a unit vector. */
  lemma NormalizeToUnit(a: Vec, sqrt: real -> real)
    requires IsSqrt(sqrt)
    requires a != Zero
    ensures MagSq(Normalize(a, None, sqrt)) == 1.0
  {
    assert EffectiveMultiplier(None) == 1.0;
    assert Square(1.0) == 1.0;
  }

  /** Lagrange's identity in the plane. */
  lemma Lagrange(u: Vec, v: Vec)
    ensures Square(Dot(u, v)) + Square(Cross(u, v)) == MagSq(u) * MagSq(v)
  {}

  /** The dot product of two unit vectors lies in [-1, 1]. */
  lemma DotOfUnits(u: Vec, v: Vec)
    requires MagSq(u) == 1.0 && MagSq(v) == 1.0
    ensures -1.0 <= Dot(u, v) <= 1.0
  {
    Lagrange(u, v);
    SquareNonNegative(Cross(u, v));
    SquareAtMostOne(Dot(u, v));
  }

  lemma DotScale(a: Vec, b: Vec, p: real, q: real)
    ensures Dot(Scale(a, p), Scale(b, q)) == p * q * Dot(a, b)
  {}

  lemma DotOfNormalized(a: Vec, b: Vec, sqrt: real -> real)
    requires IsSqrt(sqrt)
    ensures a != Zero && b != Zero ==>
      Dot(Normalize(a, None, sqrt), Normalize(b, None, sqrt)) * Magnitude(a, sqrt) * Magnitude(b, sqrt) == Dot(a, b)
  {
    if a != Zero && b != Zero {
      NormalizeUndoneByLength(a, sqrt);
      NormalizeUndoneByLength(b, sqrt);
      DotOfScaledBack(Normalize(a, None, sqrt), Normalize(b, None, sqrt), Magnitude(a, sqrt), Magnitude(b, sqrt));
    }
  }

  lemma DotOfScaledBack(u: Vec, v: Vec, p: real, q: real)
    ensures Dot(u, v) * p * q == Dot(Scale(u, p), Scale(v, q))
  {
    DotScale(u, v, p, q);
  }

  /** Multiplying the normalised vector by the original length gives the original vector back. */
  lemma NormalizeUndoneByLength(a: Vec, sqrt: real -> real)
    requires IsSqrt(sqrt)
    requires a != Zero
    ensures Scale(Normalize(a, None, sqrt), Magnitude(a, sqrt)) == a
  {
    var ma := Magnitude(a, sqrt);
    NormalizeIsScale(a, None, sqrt);
    assert EffectiveMultiplier(None) / ma == 1.0 / ma;
    assert Normalize(a, None, sqrt) == Divide(a, ma);
  }
}

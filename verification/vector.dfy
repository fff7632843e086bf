/**
  The `Vector` objects of vector.js: a mutable pair of coordinates, the
  instance methods that change the receiver and return it, and the static
  functions that build new vectors.

  Every method is specified by the value function of module `Vec2` it
  realises, so the object layer adds only what is about identity: which
  objects change, which are new, and what is returned.
 */
module Vectors {

  import opened RealArith
  import opened RealSqrt
  import V = Vec2
  import Vec2Laws

  /** The argument of instance `multiply`: a number, or another `Vector`. */
  datatype Argument = Number(k: real) | Instance(v: Vector)

  class Vector {
    var x: real
    var y: real

    /** The coordinates the object holds now. */
    function Value(): V.Vec
      reads this
    {
      V.Vec(x, y)
    }

    /** `new Vector(x, y)`; a coordinate left out becomes 0. */
    constructor(x0: V.Option<real>, y0: V.Option<real>)
      ensures Value() == V.New(x0, y0)
    {
      var v := V.New(x0, y0);
      x := v.x;
      y := v.y;
    }

    /** `a.add(v)`: adds `v` to the receiver and returns the receiver. */
    method Add(v: Vector) returns (self: Vector)
      modifies this
      ensures self == this
      ensures Value() == V.Add(old(Value()), old(v.Value()))
    {
      var vx, vy := v.x, v.y;
      x := x + vx;
      y := y + vy;
      self := this;
    }

    /** `a.substract(v)`: subtracts `v` from the receiver and returns the receiver. */
    method Substract(v: Vector) returns (self: Vector)
      modifies this
      ensures self == this
      ensures Value() == V.Substract(old(Value()), old(v.Value()))
    {
      var vx, vy := v.x, v.y;
      x := x - vx;
      y := y - vy;
      self := this;
    }

    /** `a.multiply(value)`: by a number, or component-wise by a `Vector`. */
    method Multiply(value: Argument) returns (self: Vector)
      modifies this
      ensures self == this
      ensures value.Number? ==> Value() == V.MultiplyBy(old(Value()), V.Scalar(value.k))
      ensures value.Instance? ==> Value() == V.MultiplyBy(old(Value()), V.Components(old(value.v.Value())))
    {
      match value {
        case Number(k) =>
          x := x * k;
          y := y * k;
        case Instance(v) =>
          var vx, vy := v.x, v.y;
          x := x * vx;
          y := y * vy;
      }
      self := this;
    }

    /** `a.divide(k)`: multiplies by `1/k`, which is `Vector.divide(a, k)` applied in place. */
    method Divide(k: real) returns (self: Vector)
      requires k != 0.0
      modifies this
      ensures self == this
      ensures Value() == V.Divide(old(Value()), k)
    {
      self := Multiply(Number(1.0 / k));
    }

    /** `a.magnitude()`. */
    method Magnitude(sqrt: real -> real) returns (r: real)
      requires IsSqrt(sqrt)
      ensures r == V.Magnitude(Value(), sqrt)
    {
      r := sqrt(Square(x) + Square(y));
    }

    /** `a.magnitudeSqrt()`: the squared magnitude. */
    method MagnitudeSqrt() returns (r: real)
      ensures r == V.MagSq(Value())
    {
      r := Square(x) + Square(y);
    }

    /**
      `a.normalize(multiplier)`: a vector of length 0 is returned unchanged;
      any other is divided by its length and multiplied by the multiplier,
      a falsy one (left out or 0) counting as 1.
     */
    method Normalize(multiplier: V.Option<real>, sqrt: real -> real) returns (self: Vector)
      requires IsSqrt(sqrt)
      modifies this
      ensures self == this
      ensures Value() == V.Normalize(old(Value()), multiplier, sqrt)
    {
      var m := V.EffectiveMultiplier(multiplier);
      var mag := Magnitude(sqrt);
      if mag == 0.0 {
        return this;
      }
      x := x / mag;
      y := y / mag;
      self := Multiply(Number(m));
    }

    /**
      `a.truncate(max)`: normalises to length `max` when the magnitude is
      greater than `max`. With `max` left out the comparison is false and the
      receiver is unchanged.
     */
    method Truncate(max: V.Option<real>, sqrt: real -> real) returns (self: Vector)
      requires IsSqrt(sqrt)
      modifies this
      ensures self == this
      ensures max.None? ==> Value() == old(Value())
      ensures max.Some? ==> Value() == V.Truncate(old(Value()), max.value, sqrt)
    {
      var mag := Magnitude(sqrt);
      if max.Some? && mag > max.value {
        self := Normalize(V.Some(max.value), sqrt);
      } else {
        self := this;
      }
    }

    /** `a.clone()`: a new vector with the same coordinates. */
    method Clone() returns (r: Vector)
      ensures fresh(r)
      ensures r.Value() == Value()
    {
      r := new Vector(V.Some(x), V.Some(y));
    }
  }

  // ---------------------------------------------------------------------------
  // Static functions: each returns a new vector and leaves its arguments alone
  // (none of them may modify an existing object).

  /** `Vector.add(v1, v2)`. */
  method Add(v1: Vector, v2: Vector) returns (r: Vector)
    ensures fresh(r)
    ensures r.Value() == V.Add(v1.Value(), v2.Value())
  {
    r := new Vector(V.Some(v1.x + v2.x), V.Some(v1.y + v2.y));
  }

  /** `Vector.substract(v1, v2)`. */
  method Substract(v1: Vector, v2: Vector) returns (r: Vector)
    ensures fresh(r)
    ensures r.Value() == V.Substract(v1.Value(), v2.Value())
  {
    r := new Vector(V.Some(v1.x - v2.x), V.Some(v1.y - v2.y));
  }

  /** `Vector.multiply(v1, k)`: by a number only. */
  method Multiply(v1: Vector, k: real) returns (r: Vector)
    ensures fresh(r)
    ensures r.Value() == V.Scale(v1.Value(), k)
  {
    r := new Vector(V.Some(v1.x * k), V.Some(v1.y * k));
  }

  /** `Vector.divide(v1, k)`. */
  method Divide(v1: Vector, k: real) returns (r: Vector)
    requires k != 0.0
    ensures fresh(r)
    ensures r.Value() == V.Divide(v1.Value(), k)
  {
    r := new Vector(V.Some(v1.x / k), V.Some(v1.y / k));
  }

  /** `Vector.distance(v1, v2)`: the magnitude of `v2 - v1`. */
  method Distance(v1: Vector, v2: Vector, sqrt: real -> real) returns (d: real)
    requires IsSqrt(sqrt)
    ensures d == V.Distance(v1.Value(), v2.Value(), sqrt)
  {
    var v := Substract(v2, v1);
    d := v.Magnitude(sqrt);
  }

  /** `Vector.distanceSqrt(v1, v2)`: the squared magnitude of `v2 - v1`. */
  method DistanceSqrt(v1: Vector, v2: Vector) returns (d: real)
    ensures d == V.DistanceSquared(v1.Value(), v2.Value())
  {
    var v := Substract(v2, v1);
    d := v.MagnitudeSqrt();
  }

  /** `Vector.clone(v)`. */
  method Clone(v: Vector) returns (r: Vector)
    ensures fresh(r)
    ensures r.Value() == v.Value()
  {
    r := new Vector(V.Some(v.x), V.Some(v.y));
  }

  /** `Vector.orthogonal(v)`. */
  method Orthogonal(v: Vector) returns (r: Vector)
    ensures fresh(r)
    ensures r.Value() == V.Orthogonal(v.Value())
  {
    r := new Vector(V.Some(-v.y), V.Some(v.x));
  }

  /** `Vector.normal(v1, v2)`: the unit normal of the line from `v1` to `v2`. */
  method Normal(v1: Vector, v2: Vector, sqrt: real -> real) returns (r: Vector)
    requires IsSqrt(sqrt)
    ensures fresh(r)
    ensures r.Value() == V.Normal(v1.Value(), v2.Value(), sqrt)
  {
    var d := Substract(v2, v1);
    var temp := d.Normalize(V.None, sqrt);
    ghost var t := temp.Value();
    assert t == V.Normalize(V.Substract(v2.Value(), v1.Value()), V.None, sqrt);
    r := new Vector(V.Some(-temp.y), V.Some(temp.x));
    assert r.Value() == V.Orthogonal(t);
    V.NormalIsOrthogonalOfDirection(v1.Value(), v2.Value(), sqrt);
  }

  /** `Vector.normalize(v)`: normalises a clone, so `v` keeps its coordinates. */
  method Normalize(v: Vector, sqrt: real -> real) returns (r: Vector)
    requires IsSqrt(sqrt)
    ensures fresh(r)
    ensures r.Value() == V.Normalize(v.Value(), V.None, sqrt)
  {
    var c := v.Clone();
    r := c.Normalize(V.None, sqrt);
  }

  /**
    `Vector.dot(v1, v2)`: normalises both arguments in place, then returns
    their dot product. The same object passed twice is normalised twice,
    which leaves it where the first call put it.
   */
  method Dot(v1: Vector, v2: Vector, sqrt: real -> real) returns (d: real)
    requires IsSqrt(sqrt)
    modifies v1, v2
    ensures v1.Value() == V.Normalize(old(v1.Value()), V.None, sqrt)
    ensures v2.Value() == V.Normalize(old(v2.Value()), V.None, sqrt)
    ensures d == V.Dot(v1.Value(), v2.Value())
    ensures d == V.NormalizedDot(old(v1.Value()), old(v2.Value()), sqrt)
  {
    ghost var a, b := v1.Value(), v2.Value();
    var first := v1.Normalize(V.None, sqrt);
    ghost var u := v1.Value();
    var second := v2.Normalize(V.None, sqrt);
    if v1 == v2 {
      Vec2Laws.NormalizeIdempotent(a, sqrt);
    } else {
      assert v1.Value() == u;
    }
    d := V.Dot(v1.Value(), v2.Value());
    V.NormalizedDotOfNormalized(a, b, sqrt);
  }
}

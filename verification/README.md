# vector2d in Dafny

A model of `vector.js`, a small 2-D vector type. The model covers:

- The constructor `new Vector(x, y)`. A coordinate for which `isNaN` holds (in the model: one left out) becomes 0.
- The static functions, which build a new vector and leave their arguments alone:
  - `Vector.add`, `substract`, `multiply`, `divide`, `distance`, `distanceSqrt`, `clone`, `orthogonal`, `normal`, `normalize`.
  - `Vector.dot`, which normalises both of its arguments in place before it takes their dot product.
- The instance methods, which change the receiver and return it: `add`, `substract`, `multiply`, `divide`, `normalize`, `truncate`.
- The queries `magnitude`, `magnitudeSqrt` and `clone`.

The names follow the source. `substract` is spelled that way there. `distanceSqrt` and `magnitudeSqrt` return squared lengths; they take no square root.

The model has two layers:

- **Value layer.** `arith.dfy` defines `RealArith`, the square `Math.pow(r, 2)` with the field facts the proofs need. `sqrt.dfy` defines `RealSqrt`, which describes what a square root must satisfy. `vec2.dfy` defines `Vec2`: a vector is the pair `Vec(x, y)` of reals, and every operation is a pure function. Each function's contract says what its result means: it is perpendicular, it has unit length, it lies on the same line, or it undoes another operation. `vec2_laws.dfy` defines `Vec2Laws`, the laws that connect the operations.
- **Object layer.** `vector.dfy` defines `Vectors`. The class `Vector` has mutable `x` and `y` fields. Each method is specified by the `Vec2` function it realises, together with its frame: which objects it changes, which it creates, and what it returns.

`Math.sqrt` is a parameter `sqrt: real -> real`. It is constrained by `RealSqrt.IsSqrt`: for every non-negative `q`, `sqrt(q)` is non-negative and squares to `q`. Coordinates are exact reals.

Facts about the code that the model proves and a reader might not expect:

- **truncate.** `truncate(max)` gives a vector of length `max` in the same direction only when `max > 0`.
  - `truncate(0)` turns a non-zero vector into a unit vector, because `normalize(0)` treats 0 as a falsy multiplier (`Vec2Laws.TruncateToZeroIsNormalize`).
  - A negative `max` flips a non-zero vector to the opposite side, again on every further call (`Vec2Laws.TruncateNegativeFlips`).
- **dot.** `dot` returns 0 when either argument is the zero vector, because `normalize` leaves that vector unchanged.

## Model

| member | source | states |
|---|---|---|
| Vec2.New | vector.js:2-5 | a coordinate left out becomes 0; a given coordinate is kept |
| Vec2.NewRoundTrip | vector.js:2-5 | building a vector from another's coordinates gives that vector back; building one with both coordinates left out gives the zero vector |
| Vectors.Vector.constructor | vector.js:2-5 | the new object holds `Vec2.New` of the arguments |
| Vec2.Add | vector.js:8-10 | adding the zero vector changes nothing, on either side; adding a vector to itself doubles it |
| Vec2.MagSq | vector.js:123-125 | `magnitudeSqrt` is never negative, and it is zero exactly for the zero vector |
| Vec2.Magnitude | vector.js:119-121 | `magnitude` is non-negative, its square is `magnitudeSqrt`, and it is zero exactly for the zero vector |
| Vec2Laws.AddCommutes | vector.js:8-10 | `Vector.add(a, b)` equals `Vector.add(b, a)` |
| Vec2.Substract | vector.js:12-14 | adding `b` back to `substract(a, b)` gives `a` |
| Vec2Laws.SubstractUndoesAdd | vector.js:8-14 | subtracting what was added restores the original vector |
| Vec2.Scale | vector.js:16-18 | multiplying by 1 changes nothing; multiplying by 0, or multiplying the zero vector, gives the zero vector |
| Vec2.ScaleFacts | vector.js:16-18 | multiplying by `k` multiplies `magnitudeSqrt` by k², keeps the result on the line of the input, and puts it on the side given by the sign of `k` |
| Vec2.Divide | vector.js:20-22 | multiplying `divide(a, k)` by `k` gives `a` back, and `divide(a, k)` equals multiplying by `1/k` (the instance `divide`) |
| Vec2.MultiplyBy | vector.js:73-82 | a number scales the receiver; a `Vector` with equal coordinates (k, k) scales it by k, so (1, 1) leaves it unchanged |
| Vec2Laws.ComponentwiseByUniformIsScale | vector.js:73-82 | multiplying by the vector (k, k) is the same as multiplying by the number k |
| Vec2Laws.ComponentwiseCommutes | vector.js:77-80 | the component-wise product does not depend on which vector is the receiver |
| Vec2.Orthogonal | vector.js:38-40 | the result is perpendicular to the input, has the same `magnitudeSqrt`, and is a counter-clockwise quarter turn |
| Vec2Laws.OrthogonalTwiceNegates | vector.js:38-40 | applying `orthogonal` twice negates the vector |
| Vec2.DistanceSquared | vector.js:29-32 | `distanceSqrt` is non-negative and is zero exactly when the points coincide |
| Vec2Laws.DistanceSquaredSymmetric | vector.js:29-32 | `distanceSqrt(a, b)` equals `distanceSqrt(b, a)` |
| Vec2Laws.DistanceSquaredTranslation | vector.js:29-32 | adding the same vector to both points leaves `distanceSqrt` unchanged |
| Vec2.Distance | vector.js:24-27 | `distance` is non-negative, squares to `distanceSqrt`, and is zero exactly when the points coincide |
| Vec2Laws.DistanceSymmetric | vector.js:24-27 | `distance(a, b)` equals `distance(b, a)` |
| Vec2Laws.DistanceExample | vector.js:24-32 | (0, 0) and (3, 4) are 5 apart, and 25 apart in the squared domain |
| Vec2.EffectiveMultiplier | vector.js:95 | a falsy multiplier (left out, or 0) becomes 1; any other is kept; the result is never 0 |
| Vec2.Normalize | vector.js:94-103 | a zero vector is returned unchanged. Any other result has length equal to the absolute value of the effective multiplier, lies on the line of the input, and points the same way exactly when the multiplier is positive and the opposite way exactly when it is negative |
| Vec2.NormalizeIsScale | vector.js:94-103 | normalising a non-zero vector multiplies it by multiplier / magnitude |
| Vec2.NormalizeToUnit | vector.js:94-103 | `normalize()` of a non-zero vector has unit length |
| Vec2.NormalizeUndoneByLength | vector.js:94-103 | multiplying `normalize()` of a non-zero vector by its magnitude gives the vector back |
| Vec2Laws.NormalizeZeroMultiplierIsDefault | vector.js:95-101 | `normalize(0)` is `normalize()` |
| Vec2Laws.NormalizeIsUnitTimesMultiplier | vector.js:94-103 | `normalize(m)` is `normalize()` multiplied by the effective multiplier, including for the zero vector |
| Vec2Laws.NormalizeIdempotent | vector.js:94-103 | normalising an already normalised vector changes nothing |
| Vec2Laws.UnitIsFixed | vector.js:94-103 | a unit vector is its own normalisation |
| Vec2Laws.NormalizeOfLength | vector.js:94-103 | normalising a vector of known positive length `len` multiplies it by multiplier / `len` |
| Vec2Laws.NormalizeExample | vector.js:94-103 | (5, 0) normalises to (1, 0), and to (2, 0) with multiplier 2 |
| Vec2.Truncate | vector.js:87-92 | a vector no longer than `max` (and the zero vector) is unchanged. Otherwise: a positive `max` gives length `max` in the same direction; `max = 0` gives a unit vector in the same direction; a negative `max` gives length equal to the absolute value of `max` in the opposite direction |
| Vec2Laws.TruncateToZeroIsNormalize | vector.js:87-95 | `truncate(0)` equals `normalize()` for every vector |
| Vec2Laws.TruncateBounded | vector.js:87-92 | with a positive `max`, the result's magnitude is at most `max` |
| Vec2Laws.LengthOfSquare | vector.js:119-121 | a vector whose `magnitudeSqrt` is max² has magnitude `max` |
| Vec2Laws.TruncateIdempotent | vector.js:87-92 | with a non-negative `max`, truncating twice is the same as truncating once |
| Vec2Laws.TruncateNegativeFlips | vector.js:87-92 | with a negative `max`, a second truncation of a non-zero vector changes it again |
| Vec2.Normal | vector.js:42-48 | for distinct points the result has unit length, is perpendicular to `v2 - v1`, and lies a counter-clockwise quarter turn from it; for equal points it is the zero vector |
| Vec2.NormalizedDot | vector.js:54-58 | the result lies in [-1, 1]; it is 0 when either vector is zero; otherwise, multiplied by both magnitudes, it gives the dot product of the inputs |
| Vec2Laws.NormalizedDotSelf | vector.js:54-58 | `dot(a, a)` is 1 for a non-zero `a` |
| Vec2Laws.NormalizedDotSymmetric | vector.js:54-58 | `dot(a, b)` returns the same number as `dot(b, a)` |
| Vectors.Vector.Add | vector.js:61-65 | only the receiver changes; it becomes `Vec2.Add` of the old values, and it is returned |
| Vectors.Vector.Substract | vector.js:67-71 | only the receiver changes; it becomes `Vec2.Substract` of the old values, and it is returned |
| Vectors.Vector.Multiply | vector.js:73-82 | only the receiver changes; a number scales it and a `Vector` multiplies it component-wise, read before the update; it is returned |
| Vectors.Vector.Divide | vector.js:83-85 | only the receiver changes; it becomes `Vec2.Divide` of its old value, and it is returned |
| Vectors.Vector.Magnitude | vector.js:119-121 | returns `Vec2.Magnitude` of the current coordinates and changes nothing |
| Vectors.Vector.MagnitudeSqrt | vector.js:123-125 | returns `Vec2.MagSq` of the current coordinates and changes nothing |
| Vectors.Vector.Normalize | vector.js:94-103 | only the receiver changes; it becomes `Vec2.Normalize` of its old value, and it is returned |
| Vectors.Vector.Truncate | vector.js:87-92 | only the receiver changes; it becomes `Vec2.Truncate` of its old value, and it is unchanged when `max` is left out; it is returned |
| Vectors.Vector.Clone | vector.js:132-134 | a fresh vector with the receiver's coordinates |
| Vectors.Add | vector.js:8-10 | a fresh vector equal to `Vec2.Add` of the arguments; no existing object changes |
| Vectors.Substract | vector.js:12-14 | a fresh vector equal to `Vec2.Substract` of the arguments; no existing object changes |
| Vectors.Multiply | vector.js:16-18 | a fresh vector equal to the argument scaled by the number; no existing object changes |
| Vectors.Divide | vector.js:20-22 | a fresh vector equal to `Vec2.Divide` of the argument; no existing object changes |
| Vectors.Distance | vector.js:24-27 | returns `Vec2.Distance` of the arguments and changes nothing |
| Vectors.DistanceSqrt | vector.js:29-32 | returns `Vec2.DistanceSquared` of the arguments and changes nothing |
| Vectors.Clone | vector.js:34-36 | a fresh vector with the argument's coordinates |
| Vectors.Orthogonal | vector.js:38-40 | a fresh vector equal to `Vec2.Orthogonal` of the argument |
| Vectors.Normal | vector.js:42-48 | a fresh vector equal to `Vec2.Normal` of the arguments; the temporary difference vector is new, so no existing object changes |
| Vectors.Normalize | vector.js:50-52 | a fresh vector equal to `Vec2.Normalize` of the argument; the argument is not changed, because the clone is normalised |
| Vectors.Dot | vector.js:54-58 | both arguments are left normalised, including when the same object is passed twice. The returned number is the dot product of their new values and equals `Vec2.NormalizedDot` of their old values |

## Left out

- `rotate`, `setAngle` and `direction` (vector.js:105-117, 127-130) are not modelled: they need `Math.cos`, `Math.sin` and `Math.atan2`, which have no counterpart over Dafny's reals. Note that `rotate` returns `undefined`, not the receiver.
- Floating point: coordinates are exact reals, so NaN, the infinities and rounding are not modelled. In particular, `x / mag * m` and `x * (m / mag)` are treated as equal, and so are `x / k` and `x * (1 / k)`.
- Vec2.Divide: requires `k != 0`, because reals have no infinities.
- Vectors.Divide: requires `k != 0`. For `k = 0` the static `divide` in the source gives ±Infinity for a non-zero coordinate. For a zero coordinate it gives 0, because 0/0 is NaN and the constructor replaces NaN by 0. Reals cannot represent the infinities.
- Vectors.Vector.Divide: requires `k != 0`. For `k = 0` the instance `divide` calls `multiply(Infinity)`, which gives ±Infinity for a non-zero coordinate and NaN for a zero one; the result is not passed through the constructor.
- Vectors.Vector.Divide: a `Vector` argument is not accepted. The source computes `1 / value`, which is NaN for an object.
- Vectors.Multiply: the static `multiply` takes a number only. With a `Vector` argument each product in the source is NaN, which the constructor replaces by 0, so the source returns (0, 0); that case is not modelled.
- Vectors.Vector.Normalize: the multiplier is a number or left out. A `Vector` multiplier, which the source would apply component-wise, is not modelled.
- Vec2.New: a coordinate is either a number or left out (`Option`). The `!isNaN` guard also lets through numeric strings, booleans and `null`, and those keep a non-number value in the field. That coercion is not modelled.
- Vectors.Vector.Truncate: `max` is a number or left out. A non-numeric `max` is not modelled.
- Vectors.Vector.Magnitude: `Math.sqrt` is a parameter constrained only by `RealSqrt.IsSqrt`, so no particular rounding is modelled.
- Results are built with `new this(...)` and `new this.constructor(...)`. The model always builds a `Vector`; subclass dispatch is not modelled.
- `module.exports` is packaging, not behaviour.

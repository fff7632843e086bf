/**
  The square root that `Math.sqrt` stands for in `magnitude`.

  Dafny's `real` has no built-in square root, so the model takes the root as a
  parameter `sqrt: real -> real` and asks of it only what a square root on the
  non-negative reals must satisfy.
 */
module RealSqrt {

  import opened RealArith

  /** `sqrt` returns, for every non-negative `q`, a non-negative number whose square is `q`. */
  ghost predicate IsSqrt(sqrt: real -> real) {
    forall q :: 0.0 <= q ==> 0.0 <= sqrt(q) && Square(sqrt(q)) == q
  }

  /** The root of the square of a non-negative number is that number. */
  lemma SqrtOfSquare(sqrt: real -> real, s: real)
    requires IsSqrt(sqrt)
    requires 0.0 <= s
    ensures sqrt(Square(s)) == s
  {
    SquareNonNegative(s);
    SquareInjective(sqrt(Square(s)), s);
  }

  lemma SqrtOfOne(sqrt: real -> real)
    requires IsSqrt(sqrt)
    ensures sqrt(1.0) == 1.0
  {
    SqrtOfSquare(sqrt, 1.0);
  }

  /** Only zero has root zero; every positive number has a positive root. */
  lemma SqrtZeroIff(sqrt: real -> real, q: real)
    requires IsSqrt(sqrt)
    requires 0.0 <= q
    ensures sqrt(q) == 0.0 <==> q == 0.0
    ensures 0.0 < q ==> 0.0 < sqrt(q)
  {
    assert 0.0 <= sqrt(q) && Square(sqrt(q)) == q;
    if q == 0.0 {
      SqrtOfSquare(sqrt, 0.0);
    }
  }
}

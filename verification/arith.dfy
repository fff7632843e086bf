/**
  Real arithmetic shared by the vector model: the square `Math.pow(r, 2)` and
  the handful of field facts about it that the vector proofs rely on.
 */
module RealArith {

  /** `Math.pow(r, 2)` over the reals. */
  function Square(r: real): real {
    r * r
  }

  lemma MulPos(a: real, b: real)
    requires 0.0 < a && 0.0 < b
    ensures 0.0 < a * b
  {}

  lemma MulNonNeg(a: real, b: real)
    requires 0.0 <= a && 0.0 <= b
    ensures 0.0 <= a * b
  {}

  lemma SquareNonNegative(r: real)
    ensures 0.0 <= Square(r)
  {}

  lemma SquarePositive(r: real)
    requires r != 0.0
    ensures 0.0 < Square(r)
  {
    if 0.0 < r {
      calc { Square(r); == r * r; > 0.0; }
    } else {
      calc { Square(r); == (-r) * (-r); > 0.0; }
    }
  }

  /** On the non-negative numbers squaring is strictly increasing. */
  lemma SquareIncreasing(s: real, t: real)
    requires 0.0 <= s < t
    ensures Square(s) < Square(t)
  {
    var d := t - s;
    assert Square(t) == Square(s) + 2.0 * (s * d) + Square(d);
    MulNonNeg(s, d);
    SquarePositive(d);
  }

  /** Two non-negative numbers with the same square are equal. */
  lemma SquareInjective(t: real, s: real)
    requires 0.0 <= t && 0.0 <= s
    requires Square(t) == Square(s)
    ensures t == s
  {
    if s < t {
      SquareIncreasing(s, t);
    } else if t < s {
      SquareIncreasing(t, s);
    }
  }

  /** A sum of two squares is non-negative, and zero only when both terms are. */
  lemma SumOfSquaresZero(a: real, b: real)
    ensures 0.0 <= Square(a) + Square(b)
    ensures Square(a) + Square(b) == 0.0 <==> a == 0.0 && b == 0.0
  {
    SquareNonNegative(a);
    SquareNonNegative(b);
    if a != 0.0 {
      SquarePositive(a);
    }
    if b != 0.0 {
      SquarePositive(b);
    }
  }

  lemma SquareOfProduct(k: real, r: real)
    ensures Square(k * r) == Square(k) * Square(r)
  {}

  lemma SquareOfQuotient(r: real, m: real)
    requires m != 0.0
    ensures Square(r / m) * Square(m) == Square(r)
  {
    SquareOfProduct(r / m, m);
    assert r / m * m == r;
  }

  lemma SquareOfNegation(r: real)
    ensures Square(-r) == Square(r)
  {}

  /** A number whose square is at most one lies in [-1, 1]. */
  lemma SquareAtMostOne(d: real)
    requires Square(d) <= 1.0
    ensures -1.0 <= d <= 1.0
  {
    if d > 1.0 {
      calc { Square(d) - 1.0; == (d - 1.0) * (d + 1.0); > 0.0; }
    } else if d < -1.0 {
      calc { Square(d) - 1.0; == (-1.0 - d) * (1.0 - d); > 0.0; }
    }
  }
}

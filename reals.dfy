/** Facts about real arithmetic that the solver does not find on its own. */
module RealFacts {

  /** Zero, stated both as an equation and as "neither positive nor negative"; the
      second form is the one sign arguments about products use. */
  predicate IsZero(p: real)
    ensures IsZero(p) <==> !(p > 0.0) && !(p < 0.0)
  {
    p == 0.0
  }

  function Abs(x: real): (r: real)
    ensures r >= 0.0 && (r == x || r == -x)
  {
    if x < 0.0 then -x else x
  }

  lemma SquareNonNegative(x: real)
    ensures x * x >= 0.0
  {
    if x < 0.0 || x > 0.0 {
      SquarePositive(x);
    }
  }

  /** A sum of two squares with a non-zero second term is positive. */
  lemma SquaresPositive(a: real, b: real)
    requires b != 0.0
    ensures a * a + b * b > 0.0
  {
    SquareNonNegative(a);
    SquarePositive(b);
  }

  /** A sum of two squares is positive unless both terms are zero. */
  lemma SquaresPositiveEither(a: real, b: real)
    requires a != 0.0 || b != 0.0
    ensures a * a + b * b > 0.0
  {
    if a != 0.0 {
      SquarePositive(a);
      SquareNonNegative(b);
    } else {
      SquaresPositive(a, b);
    }
  }

  lemma SquarePositive(x: real)
    requires x < 0.0 || x > 0.0
    ensures x * x > 0.0
  {
    if x < 0.0 {
      assert x * x == (-x) * (-x);
    }
  }

  /** A sum of two squares that is not positive has both terms zero. */
  lemma SquaresNotPositive(a: real, b: real)
    requires !(a * a + b * b > 0.0)
    ensures !(a < 0.0) && !(a > 0.0) && !(b < 0.0) && !(b > 0.0)
  {
    if a < 0.0 || a > 0.0 {
      SquarePositive(a);
    }
    if b < 0.0 || b > 0.0 {
      SquarePositive(b);
    }
    assert !(a * a < 0.0) && !(b * b < 0.0);
  }

  /** A sum of two squares vanishes only when both terms do. */
  lemma SquaresVanish(a: real, b: real)
    requires a * a + b * b == 0.0
    ensures a == 0.0 && b == 0.0
  {
    assert IsZero(a * a + b * b);
    SquaresNotPositive(a, b);
    assert IsZero(a) && IsZero(b);
  }

  /** A product with a non-zero factor vanishes only if the other factor does. */
  lemma CancelFactor(a: real, b: real)
    requires a * b == 0.0 && b != 0.0
    ensures a == 0.0
  {
  }

  /** The same with a square as the non-zero factor. */
  lemma CancelSquare(a: real, b: real)
    requires a * (b * b) == 0.0 && b != 0.0
    ensures a == 0.0
  {
    CancelFactor(a * b, b);
    CancelFactor(a, b);
  }
}

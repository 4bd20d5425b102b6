/** The 2x2 polar decomposition and the 2x2 SVD of the kernel, with `T` read as
    `real` and the square root as a parameter. */
module Svd2 {
  import opened Matrix
  import opened RealFacts
  import opened Givens

  /** `1e-20`: below it the off-diagonal entry of `S` counts as zero. */
  const Tiny: real := 0.00000000000000000001

  /** `sqrt` is positive at `p` if `p` is. */
  predicate PositiveAt(sqrt: real -> real, p: real) {
    p > 0.0 ==> sqrt(p) > 0.0
  }

  /** A square-root routine that is positive on positive numbers. This is all
      the divisions of `svd` need to be defined. */
  ghost predicate PositiveRoot(sqrt: real -> real) {
    forall p :: PositiveAt(sqrt, p)
  }

  /** `sqrt` is the exact square root at `p`. */
  predicate RootAt(sqrt: real -> real, p: real) {
    sqrt(p) >= 0.0 && sqrt(p) * sqrt(p) == p
  }

  /** `sqrt` is the exact square root everywhere it is defined. */
  ghost predicate ExactRoot(sqrt: real -> real) {
    forall p :: p >= 0.0 ==> RootAt(sqrt, p)
  }

  lemma ExactIsPositive(sqrt: real -> real)
    requires ExactRoot(sqrt)
    ensures PositiveRoot(sqrt)
  {
    forall p
      ensures PositiveAt(sqrt, p)
    {
      if p > 0.0 {
        assert RootAt(sqrt, p);
      }
    }
  }

  // ---------------------------------------------------------------------------
  // Polar decomposition

  /** The pair `polarDecomposition` builds from `x = (x0, x1)`: `(x0, -x1) / |x|`
      with `|x|` computed by `sqrt`, or the identity when that is 0. */
  function PolarPairOf(x0: real, x1: real, sqrt: real -> real): CS {
    var den := sqrt(x0 * x0 + x1 * x1);
    if den != 0.0 then CS(x0 / den, -x1 / den) else CS(1.0, 0.0)
  }

  /** The rotation of `polarDecomposition`, from `x = (A00 + A11, A01 - A10)`
      (column, row). */
  function PolarPair(A: Mat, sqrt: real -> real): CS
    requires IsMat(A, 2, 2)
  {
    PolarPairOf(A[0][0] + A[1][1], A[0][1] - A[1][0], sqrt)
  }

  /** The factor `S` of the polar decomposition: `A` with its rows rotated by
      `PolarPair(A)`. */
  function Polar(A: Mat, sqrt: real -> real): (S: Mat)
    requires IsMat(A, 2, 2)
    ensures IsMat(S, 2, 2)
  {
    RowRotated(A, 0, 1, PolarPair(A, sqrt))
  }

  /** The polar pair is parallel to `(x0, -x1)`: it is orthogonal to `(x1, x0)`. */
  lemma PolarPairAligned(x0: real, x1: real, sqrt: real -> real)
    requires PositiveAt(sqrt, x0 * x0 + x1 * x1)
    ensures PolarPairOf(x0, x1, sqrt).c * x1 + PolarPairOf(x0, x1, sqrt).s * x0 == 0.0
  {
    var den := sqrt(x0 * x0 + x1 * x1);
    var g := PolarPairOf(x0, x1, sqrt);
    if den != 0.0 {
      assert g.c * den == x0 && g.s * den == -x1;
      assert (g.c * x1 + g.s * x0) * den == (g.c * den) * x1 + (g.s * den) * x0;
      CancelFactor(g.c * x1 + g.s * x0, den);
    } else {
      SquaresNotPositive(x0, x1);
    }
  }

  /** A pair `(x0, -x1) / den` with `den = |x|` turns `x` onto `(den, 0)`. */
  lemma ScaledPairTurns(x0: real, x1: real, den: real, c: real, s: real)
    requires den != 0.0 && c * den == x0 && s * den == -x1 && den * den == x0 * x0 + x1 * x1
    ensures c * x0 - s * x1 == den
  {
    assert (c * x0 - s * x1) * den == c * den * x0 - s * den * x1;
    assert (c * x0 - s * x1 - den) * den == 0.0;
    CancelFactor(c * x0 - s * x1 - den, den);
  }

  /** A pair `(x0, -x1) / den` with `den = |x|` is a unit pair. */
  lemma ScaledPairUnit(x0: real, x1: real, den: real, c: real, s: real)
    requires den != 0.0 && c * den == x0 && s * den == -x1 && den * den == x0 * x0 + x1 * x1
    ensures c * c + s * s == 1.0
  {
    var q := c * c + s * s - 1.0;
    assert q * (den * den) == (c * den) * (c * den) + (s * den) * (s * den) - den * den;
    assert (c * den) * (c * den) == x0 * x0 && (s * den) * (s * den) == x1 * x1;
    CancelSquare(q, den);
  }

  /** With an exact root the polar pair is a unit pair and turns `x` onto
      `(|x|, 0)`. */
  lemma PolarPairExact(x0: real, x1: real, sqrt: real -> real)
    requires RootAt(sqrt, x0 * x0 + x1 * x1)
    ensures var g := PolarPairOf(x0, x1, sqrt);
      g.c * x0 - g.s * x1 == sqrt(x0 * x0 + x1 * x1) && Norm2(g) == 1.0
  {
    var den := sqrt(x0 * x0 + x1 * x1);
    var g := PolarPairOf(x0, x1, sqrt);
    if den != 0.0 {
      assert g == CS(x0 / den, -x1 / den);
      assert g.c * den == x0 && g.s * den == -x1;
      ScaledPairTurns(x0, x1, den, g.c, g.s);
      ScaledPairUnit(x0, x1, den, g.c, g.s);
    } else {
      SquaresVanish(x0, x1);
    }
  }

  /** Rotating the rows of `A` by a pair orthogonal to `(A01 - A10, A00 + A11)`
      gives a symmetric matrix. */
  lemma RotatedSymmetric(A: Mat, g: CS)
    requires IsMat(A, 2, 2) && g.c * (A[0][1] - A[1][0]) + g.s * (A[0][0] + A[1][1]) == 0.0
    ensures RowRotated(A, 0, 1, g)[1][0] == RowRotated(A, 0, 1, g)[0][1]
  {
  }

  /** The trace after a row rotation of a 2x2 matrix. */
  lemma RotatedTrace(A: Mat, g: CS)
    requires IsMat(A, 2, 2)
    ensures RowRotated(A, 0, 1, g)[0][0] + RowRotated(A, 0, 1, g)[1][1]
         == g.c * (A[0][0] + A[1][1]) - g.s * (A[0][1] - A[1][0])
  {
  }

  /** `S` is symmetric, whatever positive value the root takes. */
  lemma PolarSymmetric(A: Mat, sqrt: real -> real)
    requires IsMat(A, 2, 2) && PositiveRoot(sqrt)
    ensures Polar(A, sqrt)[1][0] == Polar(A, sqrt)[0][1]
  {
    var x0, x1 := A[0][0] + A[1][1], A[0][1] - A[1][0];
    assert PositiveAt(sqrt, x0 * x0 + x1 * x1);
    PolarPairAligned(x0, x1, sqrt);
    RotatedSymmetric(A, PolarPair(A, sqrt));
  }

  /** With an exact root the trace of `S` is `|x|`, never negative, and the
      rotation is a unit pair. */
  lemma PolarExact(A: Mat, sqrt: real -> real)
    requires IsMat(A, 2, 2) && ExactRoot(sqrt)
    ensures Polar(A, sqrt)[0][0] + Polar(A, sqrt)[1][1] >= 0.0
    ensures Norm2(PolarPair(A, sqrt)) == 1.0
  {
    var x0, x1 := A[0][0] + A[1][1], A[0][1] - A[1][0];
    SquareNonNegative(x0);
    SquareNonNegative(x1);
    assert RootAt(sqrt, x0 * x0 + x1 * x1);
    PolarPairExact(x0, x1, sqrt);
    RotatedTrace(A, PolarPair(A, sqrt));
  }

  /** `polarDecomposition(A, R, S)`: `R` becomes `PolarPair(A)` and `S` becomes
      `A` rotated by it. `R` keeps its indices, which must be 0 and 1. */
  method PolarDecomposition(A: array2<real>, R: GivensRotation, S: array2<real>, sqrt: real -> real)
    requires A.Length0 == A.Length1 == 2 && S.Length0 == S.Length1 == 2
    requires R.rowi == 0 && R.rowk == 1
    modifies R`c, R`s, S
    ensures R.Pair() == PolarPair(old(Cells(A)), sqrt)
    ensures Cells(S) == Polar(old(Cells(A)), sqrt)
  {
    ghost var a := Cells(A);
    var x0 := A[0, 0] + A[1, 1];
    var x1 := A[0, 1] - A[1, 0];
    var den := sqrt(x0 * x0 + x1 * x1);
    ghost var g := PolarPairOf(x0, x1, sqrt);
    R.c := 1.0;
    R.s := 0.0;
    if den != 0.0 {
      R.c := x0 / den;
      R.s := -x1 / den;
      assert R.Pair() == g;
    } else {
      assert R.Pair() == g;
    }
    assert a[0][0] + a[1][1] == x0 && a[0][1] - a[1][0] == x1;
    assert g == PolarPair(a, sqrt);
    forall j, i | 0 <= j < 2 && 0 <= i < 2 {
      S[j, i] := A[j, i];
    }
    SameCells(Cells(S), a, 2, 2);
    R.RowRotation(S);
  }

  // ---------------------------------------------------------------------------
  // Diagonalising the symmetric factor

  /** A rotation `(cosine, sine)` and the two diagonal entries it produces. */
  datatype Rotation2 = Rotation2(cosine: real, sine: real, sigma0: real, sigma1: real)

  /** The diagonal entries `svd` computes for the pair `(c, s)` from `c2`, `csy`
      and `s2`, on the symmetric matrix with diagonal `x`, `z` and off-diagonal `y`. */
  function Rotate2(x: real, y: real, z: real, c: real, s: real): Rotation2 {
    Rotation2(c, s, c * c * x - 2.0 * c * s * y + s * s * z, s * s * x + 2.0 * c * s * y + c * c * z)
  }

  /** The tangent `svd` solves for, from `tau = (x - z) / 2`, the off-diagonal
      `y` and the root `w` of `tau^2 + y^2`: `y / (tau + w)` or `y / (tau - w)`,
      whichever denominator is away from 0. */
  function TangentOf(tau: real, y: real, w: real): real
    requires w > 0.0
  {
    if tau > 0.0 then y / (tau + w) else y / (tau - w)
  }

  /** The root `w` of `tau^2 + y^2` as `svd` computes it. */
  function Hypot(tau: real, y: real, sqrt: real -> real): (w: real)
    requires y != 0.0 && PositiveRoot(sqrt)
    ensures w > 0.0
  {
    SquaresPositive(tau, y);
    assert PositiveAt(sqrt, tau * tau + y * y);
    sqrt(tau * tau + y * y)
  }

  /** The reciprocal root `1 / sqrt(t^2 + 1)` that `svd` takes as the cosine. */
  function CosineOf(t: real, sqrt: real -> real): real
    requires PositiveRoot(sqrt)
  {
    SquareNonNegative(t);
    assert PositiveAt(sqrt, t * t + 1.0);
    1.0 / sqrt(t * t + 1.0)
  }

  /** The rotating branch of the diagonal step, for an off-diagonal `y != 0`. */
  function Rotating(x: real, y: real, z: real, sqrt: real -> real): Rotation2
    requires y != 0.0 && PositiveRoot(sqrt)
  {
    var tau := 0.5 * (x - z);
    var t := TangentOf(tau, y, Hypot(tau, y, sqrt));
    var cosine := CosineOf(t, sqrt);
    Rotate2(x, y, z, cosine, -t * cosine)
  }

  /** The diagonal step of `svd`: no rotation when the off-diagonal is below `1e-20`. */
  function Diagonal(x: real, y: real, z: real, sqrt: real -> real): Rotation2
    requires PositiveRoot(sqrt)
  {
    if Abs(y) < Tiny then Rotation2(1.0, 0.0, x, z) else Rotating(x, y, z, sqrt)
  }

  /** The result of the 2x2 `svd`: `U`, `sigma` and `V`. */
  datatype Decomposition2 = Decomposition2(u: CS, sigma0: real, sigma1: real, v: CS)

  /** The sort step of `svd` after the polar rotation `r` and the diagonal step
      `e`: swap the values and turn `V` a quarter turn when they are out of
      order; then `U *= V`. */
  function Sorted(r: CS, e: Rotation2): (d: Decomposition2)
    ensures d.sigma0 >= d.sigma1
  {
    if e.sigma0 < e.sigma1 then
      var v := CS(-e.sine, e.cosine);
      Decomposition2(Product(r, v), e.sigma1, e.sigma0, v)
    else
      var v := CS(e.cosine, e.sine);
      Decomposition2(Product(r, v), e.sigma0, e.sigma1, v)
  }

  /** The 2x2 `svd` as a value. */
  function Decompose(A: Mat, sqrt: real -> real): Decomposition2
    requires IsMat(A, 2, 2) && PositiveRoot(sqrt)
  {
    var S := Polar(A, sqrt);
    Sorted(PolarPair(A, sqrt), Diagonal(S[0][0], S[1][0], S[1][1], sqrt))
  }

  /** `(p, q)^T S (p, q)` for the symmetric matrix with diagonal `x`, `z` and
      off-diagonal `y`. */
  function Quad(x: real, y: real, z: real, p: real, q: real): real {
    p * p * x + 2.0 * p * q * y + q * q * z
  }

  /** `(p0, q0)^T S (p1, q1)` for the same matrix. */
  function Cross(x: real, y: real, z: real, p0: real, q0: real, p1: real, q1: real): real {
    p0 * p1 * x + (p0 * q1 + q0 * p1) * y + q0 * q1 * z
  }

  /** The values of `Rotate2` are the quadratic forms of `S` on the columns
      `(c, -s)` and `(s, c)` of the filled rotation. */
  lemma Rotate2Quads(x: real, y: real, z: real, c: real, s: real)
    ensures Rotate2(x, y, z, c, s).sigma0 == Quad(x, y, z, c, -s)
    ensures Rotate2(x, y, z, c, s).sigma1 == Quad(x, y, z, s, c)
  {
  }

  /** Both branches of the diagonal step are `Rotate2` of their own pair. */
  lemma DiagonalRotates(x: real, y: real, z: real, sqrt: real -> real)
    requires PositiveRoot(sqrt)
    ensures var e := Diagonal(x, y, z, sqrt); e == Rotate2(x, y, z, e.cosine, e.sine)
  {
  }

  /** The sort keeps the values the quadratic forms on the columns of `V`. */
  lemma SortedQuads(r: CS, e: Rotation2, x: real, y: real, z: real)
    requires e.sigma0 == Quad(x, y, z, e.cosine, -e.sine) && e.sigma1 == Quad(x, y, z, e.sine, e.cosine)
    ensures var d := Sorted(r, e);
      d.sigma0 == Quad(x, y, z, d.v.c, -d.v.s) && d.sigma1 == Quad(x, y, z, d.v.s, d.v.c)
  {
    if e.sigma0 < e.sigma1 {
      QuadNegate(x, y, z, e.sine, e.cosine);
    }
  }

  lemma QuadNegate(x: real, y: real, z: real, p: real, q: real)
    ensures Quad(x, y, z, -p, -q) == Quad(x, y, z, p, q)
  {
    assert (-p) * (-p) == p * p && (-p) * (-q) == p * q && (-q) * (-q) == q * q;
  }

  /** The sort changes at most the sign of the cross form of `V`. */
  lemma SortedCross(r: CS, e: Rotation2, x: real, y: real, z: real)
    ensures var d := Sorted(r, e);
      Abs(Cross(x, y, z, d.v.c, -d.v.s, d.v.s, d.v.c)) == Abs(Cross(x, y, z, e.cosine, -e.sine, e.sine, e.cosine))
  {
    var d := Sorted(r, e);
    if e.sigma0 < e.sigma1 {
      assert Cross(x, y, z, d.v.c, -d.v.s, d.v.s, d.v.c) == -Cross(x, y, z, e.cosine, -e.sine, e.sine, e.cosine);
    }
  }

  /** Sorted values whose sum is not negative put the larger magnitude first. */
  lemma SortedMagnitude(r: CS, e: Rotation2)
    requires e.sigma0 + e.sigma1 >= 0.0
    ensures Sorted(r, e).sigma0 >= Abs(Sorted(r, e).sigma1)
  {
  }

  /** The sort: `V` is `(cosine, sine)` when the values were in order and that
      pair turned a quarter turn, `(-sine, cosine)`, when they were swapped; `U`
      is the polar rotation composed with `V`. */
  lemma DecomposeSort(A: Mat, sqrt: real -> real)
    requires IsMat(A, 2, 2) && PositiveRoot(sqrt)
    ensures var d, S := Decompose(A, sqrt), Polar(A, sqrt);
      var e := Diagonal(S[0][0], S[1][0], S[1][1], sqrt);
      && d.sigma0 >= d.sigma1
      && d.u == Product(PolarPair(A, sqrt), d.v)
      && (if e.sigma0 < e.sigma1
          then d.v == Product(CS(e.cosine, e.sine), CS(0.0, 1.0)) && d.sigma0 == e.sigma1 && d.sigma1 == e.sigma0
          else d.v == CS(e.cosine, e.sine) && d.sigma0 == e.sigma0 && d.sigma1 == e.sigma1)
  {
    var S := Polar(A, sqrt);
    SortedShape(PolarPair(A, sqrt), Diagonal(S[0][0], S[1][0], S[1][1], sqrt));
  }

  lemma SortedShape(r: CS, e: Rotation2)
    ensures var d := Sorted(r, e);
      && d.u == Product(r, d.v)
      && (if e.sigma0 < e.sigma1
          then d.v == Product(CS(e.cosine, e.sine), CS(0.0, 1.0)) && d.sigma0 == e.sigma1 && d.sigma1 == e.sigma0
          else d.v == CS(e.cosine, e.sine) && d.sigma0 == e.sigma0 && d.sigma1 == e.sigma1)
  {
  }

  /** `y t^2 + 2 tau t - y = 0` for `t = y / (tau +- w)` when `w` is the exact
      root of `tau^2 + y^2`: `t` is the tangent that diagonalises `S`. */
  lemma TangentRoot(y: real, tau: real, w: real, den: real, t: real)
    requires w * w == tau * tau + y * y
    requires den == tau + w || den == tau - w
    requires den != 0.0 && t * den == y
    ensures y * t * t + 2.0 * tau * t - y == 0.0
  {
    var e := y * t * t + 2.0 * tau * t - y;
    var p := y * y + 2.0 * tau * den - den * den;
    assert p == 0.0 by {
      assert 2.0 * tau * den - den * den == tau * tau - w * w;
    }
    var u := t * den;
    assert e * (den * den) == y * u * u + 2.0 * tau * u * den - y * den * den;
    assert y * u * u + 2.0 * tau * u * den - y * den * den == y * y * y + 2.0 * tau * y * den - y * den * den;
    assert y * y * y + 2.0 * tau * y * den - y * den * den == y * p;
    assert e * (den * den) == 0.0;
    CancelSquare(e, den);
  }

  /** The tangent is a root of `y t^2 + 2 tau t - y` when `w` is exact. */
  lemma TangentExact(tau: real, y: real, w: real)
    requires w > 0.0 && w * w == tau * tau + y * y
    ensures var t := TangentOf(tau, y, w); y * t * t + 2.0 * tau * t - y == 0.0
  {
    var den := if tau > 0.0 then tau + w else tau - w;
    var t := TangentOf(tau, y, w);
    assert t * den == y;
    TangentRoot(y, tau, w, den, t);
  }

  /** The cross form of the pair `(c, -t c)`. */
  lemma CrossOfTangent(x: real, y: real, z: real, c: real, t: real)
    ensures Cross(x, y, z, c, t * c, -t * c, c) == -(c * c) * (y * t * t + 2.0 * (0.5 * (x - z)) * t - y)
  {
  }

  /** `(1, -t) / r` is a unit vector when `r` is the exact root of `t^2 + 1`. */
  lemma UnitFromRoot(t: real, r: real)
    requires r != 0.0 && r * r == t * t + 1.0
    ensures (1.0 / r) * (1.0 / r) + (-t * (1.0 / r)) * (-t * (1.0 / r)) == 1.0
  {
    var q := 1.0 / r;
    assert q * r == 1.0;
    assert q * q * (t * t + 1.0) == (q * r) * (q * r);
  }

  /** The cosine is `1 / r` for the root `r` of `t^2 + 1`, so `(c, -t c)` is a
      unit pair when the root is exact. */
  lemma CosineExact(t: real, sqrt: real -> real)
    requires ExactRoot(sqrt) && PositiveRoot(sqrt)
    ensures var c := CosineOf(t, sqrt); c * c + (-t * c) * (-t * c) == 1.0
  {
    SquareNonNegative(t);
    var r := sqrt(t * t + 1.0);
    assert RootAt(sqrt, t * t + 1.0) && PositiveAt(sqrt, t * t + 1.0);
    UnitFromRoot(t, r);
  }

  /** The exact parts of the rotating branch of the diagonal step. */
  lemma TangentCross(x: real, y: real, z: real, tau: real, t: real, c: real)
    requires tau == 0.5 * (x - z) && y * t * t + 2.0 * tau * t - y == 0.0
    ensures Cross(x, y, z, c, -(-t * c), -t * c, c) == 0.0
  {
    CrossOfTangent(x, y, z, c, t);
    assert -(-t * c) == t * c;
  }

  /** With an exact root, the pair of the diagonal step is a unit vector and its
      two columns are conjugate for `S`, except that an off-diagonal below
      `1e-20` is left as it was. */
  lemma DiagonalExact(x: real, y: real, z: real, sqrt: real -> real)
    requires ExactRoot(sqrt) && PositiveRoot(sqrt)
    ensures var e := Diagonal(x, y, z, sqrt);
      && e.cosine * e.cosine + e.sine * e.sine == 1.0
      && Cross(x, y, z, e.cosine, -e.sine, e.sine, e.cosine) == if Abs(y) < Tiny then y else 0.0
  {
    if Abs(y) < Tiny {
      IdentityCross(x, y, z);
    } else {
      RotatingExact(x, y, z, sqrt);
    }
  }

  /** The rotating branch with an exact root: a unit pair whose cross form vanishes. */
  lemma RotatingExact(x: real, y: real, z: real, sqrt: real -> real)
    requires y != 0.0 && ExactRoot(sqrt) && PositiveRoot(sqrt)
    ensures var e := Rotating(x, y, z, sqrt);
      && e.cosine * e.cosine + e.sine * e.sine == 1.0
      && Cross(x, y, z, e.cosine, -e.sine, e.sine, e.cosine) == 0.0
  {
    RotatingUnit(x, y, z, sqrt);
    RotatingCross(x, y, z, sqrt);
  }

  lemma RotatingUnit(x: real, y: real, z: real, sqrt: real -> real)
    requires y != 0.0 && ExactRoot(sqrt) && PositiveRoot(sqrt)
    ensures var e := Rotating(x, y, z, sqrt); e.cosine * e.cosine + e.sine * e.sine == 1.0
  {
    var tau := 0.5 * (x - z);
    var t := TangentOf(tau, y, Hypot(tau, y, sqrt));
    CosineExact(t, sqrt);
    RotatingParts(x, y, z, sqrt);
  }

  lemma RotatingCross(x: real, y: real, z: real, sqrt: real -> real)
    requires y != 0.0 && ExactRoot(sqrt) && PositiveRoot(sqrt)
    ensures var e := Rotating(x, y, z, sqrt); Cross(x, y, z, e.cosine, -e.sine, e.sine, e.cosine) == 0.0
  {
    var tau := 0.5 * (x - z);
    var t := TangentOf(tau, y, Hypot(tau, y, sqrt));
    var c := CosineOf(t, sqrt);
    TangentFromRoot(tau, y, sqrt);
    TangentCross(x, y, z, tau, t, c);
    RotatingParts(x, y, z, sqrt);
  }

  /** The pair of the rotating branch is `(c, -t c)` for the tangent `t` and the
      cosine `c` of `svd`. */
  lemma RotatingParts(x: real, y: real, z: real, sqrt: real -> real)
    requires y != 0.0 && PositiveRoot(sqrt)
    ensures var tau := 0.5 * (x - z);
      var t := TangentOf(tau, y, Hypot(tau, y, sqrt));
      Rotating(x, y, z, sqrt).cosine == CosineOf(t, sqrt)
      && Rotating(x, y, z, sqrt).sine == -t * CosineOf(t, sqrt)
  {
  }

  /** With an exact root the tangent of `svd` solves `y t^2 + 2 tau t - y = 0`. */
  lemma TangentFromRoot(tau: real, y: real, sqrt: real -> real)
    requires y != 0.0 && ExactRoot(sqrt) && PositiveRoot(sqrt)
    ensures var t := TangentOf(tau, y, Hypot(tau, y, sqrt)); y * t * t + 2.0 * tau * t - y == 0.0
  {
    HypotExact(tau, y, sqrt);
    TangentExact(tau, y, Hypot(tau, y, sqrt));
  }

  lemma IdentityCross(x: real, y: real, z: real)
    ensures Cross(x, y, z, 1.0, -0.0, 0.0, 1.0) == y
  {
  }

  /** With an exact root, `w` is the root of `tau^2 + y^2`. */
  lemma HypotExact(tau: real, y: real, sqrt: real -> real)
    requires y != 0.0 && ExactRoot(sqrt) && PositiveRoot(sqrt)
    ensures Hypot(tau, y, sqrt) * Hypot(tau, y, sqrt) == tau * tau + y * y
  {
    SquaresPositive(tau, y);
    assert RootAt(sqrt, tau * tau + y * y);
  }

  /** The two quadratic forms of a unit pair add up to the trace. */
  lemma TraceOfQuads(x: real, y: real, z: real, c: real, s: real)
    requires c * c + s * s == 1.0
    ensures Quad(x, y, z, c, -s) + Quad(x, y, z, s, c) == x + z
  {
    assert Quad(x, y, z, c, -s) + Quad(x, y, z, s, c) == (c * c + s * s) * (x + z);
  }

  /** `sigma` holds `V^T S V`'s diagonal: `sigma0` is the quadratic form of `S`
      on the first column of `V`, `sigma1` on the second. */
  lemma DecomposeQuads(A: Mat, sqrt: real -> real)
    requires IsMat(A, 2, 2) && PositiveRoot(sqrt)
    ensures var d, S := Decompose(A, sqrt), Polar(A, sqrt);
      && d.sigma0 == Quad(S[0][0], S[1][0], S[1][1], d.v.c, -d.v.s)
      && d.sigma1 == Quad(S[0][0], S[1][0], S[1][1], d.v.s, d.v.c)
  {
    var S := Polar(A, sqrt);
    var x, y, z := S[0][0], S[1][0], S[1][1];
    var e := Diagonal(x, y, z, sqrt);
    DiagonalRotates(x, y, z, sqrt);
    Rotate2Quads(x, y, z, e.cosine, e.sine);
    SortedQuads(PolarPair(A, sqrt), e, x, y, z);
  }

  /** With exact roots `sigma0 >= |sigma1|`: the negative sign, if any, is on the
      value of smaller magnitude. The two values sum to the trace of `S`, which
      is `|x|`. */
  lemma DecomposeMagnitude(A: Mat, sqrt: real -> real)
    requires IsMat(A, 2, 2) && ExactRoot(sqrt)
    ensures PositiveRoot(sqrt)
    ensures Decompose(A, sqrt).sigma0 >= Abs(Decompose(A, sqrt).sigma1)
  {
    ExactIsPositive(sqrt);
    var S := Polar(A, sqrt);
    var x, y, z := S[0][0], S[1][0], S[1][1];
    var e := Diagonal(x, y, z, sqrt);
    PolarExact(A, sqrt);
    DiagonalRotates(x, y, z, sqrt);
    Rotate2Quads(x, y, z, e.cosine, e.sine);
    DiagonalExact(x, y, z, sqrt);
    TraceOfQuads(x, y, z, e.cosine, e.sine);
    SortedMagnitude(PolarPair(A, sqrt), e);
  }

  /** With exact roots `U` and `V` are unit pairs, i.e. rotations. */
  lemma DecomposeUnit(A: Mat, sqrt: real -> real)
    requires IsMat(A, 2, 2) && ExactRoot(sqrt)
    ensures PositiveRoot(sqrt)
    ensures Norm2(Decompose(A, sqrt).u) == 1.0 && Norm2(Decompose(A, sqrt).v) == 1.0
  {
    ExactIsPositive(sqrt);
    var S := Polar(A, sqrt);
    PolarExact(A, sqrt);
    DiagonalExact(S[0][0], S[1][0], S[1][1], sqrt);
    SortedUnit(PolarPair(A, sqrt), Diagonal(S[0][0], S[1][0], S[1][1], sqrt));
  }

  /** The sort of two unit pairs gives unit pairs. */
  lemma SortedUnit(r: CS, e: Rotation2)
    requires Norm2(r) == 1.0 && e.cosine * e.cosine + e.sine * e.sine == 1.0
    ensures Norm2(Sorted(r, e).u) == 1.0 && Norm2(Sorted(r, e).v) == 1.0
  {
    var d := Sorted(r, e);
    if e.sigma0 < e.sigma1 {
      QuarterTurnNorm(e.cosine, e.sine);
    }
    assert Norm2(d.v) == 1.0;
    ProductNorm(r, d.v);
  }

  lemma QuarterTurnNorm(c: real, s: real)
    ensures Norm2(CS(-s, c)) == c * c + s * s
  {
    assert (-s) * (-s) == s * s;
  }

  /** Rotating the rows and then the columns of a symmetric `S` by the same pair
      gives the quadratic forms on the diagonal and the cross form off it. */
  lemma SandwichEntries(S: Mat, g: CS)
    requires IsMat(S, 2, 2) && S[0][1] == S[1][0]
    ensures var W := ColumnRotated(RowRotated(S, 0, 1, g), 0, 1, g);
      && W[0][0] == Quad(S[0][0], S[1][0], S[1][1], g.c, -g.s)
      && W[1][1] == Quad(S[0][0], S[1][0], S[1][1], g.s, g.c)
      && W[1][0] == Cross(S[0][0], S[1][0], S[1][1], g.c, -g.s, g.s, g.c)
      && W[0][1] == W[1][0]
  {
    var T := RowRotated(S, 0, 1, g);
    RowRotated2(S, g);
    ColumnRotated2(T, g);
    SandwichScalar(S[0][0], S[0][1], S[1][0], S[1][1], g.c, g.s);
  }

  /** A row rotation of a 2x2 matrix, entry by entry. */
  lemma RowRotated2(S: Mat, g: CS)
    requires IsMat(S, 2, 2)
    ensures var T := RowRotated(S, 0, 1, g);
      && IsMat(T, 2, 2)
      && T[0][0] == g.c * S[0][0] - g.s * S[0][1] && T[0][1] == g.s * S[0][0] + g.c * S[0][1]
      && T[1][0] == g.c * S[1][0] - g.s * S[1][1] && T[1][1] == g.s * S[1][0] + g.c * S[1][1]
  {
  }

  /** A column rotation of a 2x2 matrix, entry by entry. */
  lemma ColumnRotated2(T: Mat, g: CS)
    requires IsMat(T, 2, 2)
    ensures var W := ColumnRotated(T, 0, 1, g);
      && W[0][0] == g.c * T[0][0] - g.s * T[1][0] && W[0][1] == g.c * T[0][1] - g.s * T[1][1]
      && W[1][0] == g.s * T[0][0] + g.c * T[1][0] && W[1][1] == g.s * T[0][1] + g.c * T[1][1]
  {
  }

  /** `SandwichEntries` on the four entries `a = S00`, `b = S01`, `b' = S10`,
      `d = S11` (column, row). */
  lemma SandwichScalar(a: real, b: real, b': real, d: real, c: real, s: real)
    requires b == b'
    ensures c * (c * a - s * b) - s * (c * b' - s * d) == Quad(a, b', d, c, -s)
    ensures s * (s * a + c * b) + c * (s * b' + c * d) == Quad(a, b', d, s, c)
    ensures s * (c * a - s * b) + c * (c * b' - s * d) == Cross(a, b', d, c, -s, s, c)
    ensures c * (s * a + c * b) - s * (s * b' + c * d) == Cross(a, b', d, c, -s, s, c)
  {
  }

  /** The 2x2 SVD with exact roots: rotating the rows of `A` by `U` and then its
      columns by `V` leaves `sigma0` and `sigma1` on the diagonal and 0 off it,
      except for an off-diagonal of `S` below `1e-20`, which is kept up to sign. */
  lemma DecomposeDiagonalizes(A: Mat, sqrt: real -> real)
    requires IsMat(A, 2, 2) && ExactRoot(sqrt)
    ensures PositiveRoot(sqrt)
    ensures var d, S := Decompose(A, sqrt), Polar(A, sqrt);
      var W := ColumnRotated(RowRotated(A, 0, 1, d.u), 0, 1, d.v);
      && W[0][0] == d.sigma0 && W[1][1] == d.sigma1 && W[0][1] == W[1][0]
      && Abs(W[1][0]) == if Abs(S[1][0]) < Tiny then Abs(S[1][0]) else 0.0
  {
    ExactIsPositive(sqrt);
    var S := Polar(A, sqrt);
    var x, y, z := S[0][0], S[1][0], S[1][1];
    var e := Diagonal(x, y, z, sqrt);
    PolarSymmetric(A, sqrt);
    DiagonalRotates(x, y, z, sqrt);
    Rotate2Quads(x, y, z, e.cosine, e.sine);
    DiagonalExact(x, y, z, sqrt);
    SortedDiagonalizes(A, PolarPair(A, sqrt), e);
  }

  /** The sort step on a symmetric `S = U0^T A` and a pair `e` whose values are the
      quadratic forms of `S`: rotating `A`'s rows by `U` and its columns by `V`
      puts the values on the diagonal and the cross form, up to sign, off it. */
  lemma SortedDiagonalizes(A: Mat, r: CS, e: Rotation2)
    requires IsMat(A, 2, 2)
    requires var S := RowRotated(A, 0, 1, r);
      && S[0][1] == S[1][0]
      && e.sigma0 == Quad(S[0][0], S[1][0], S[1][1], e.cosine, -e.sine)
      && e.sigma1 == Quad(S[0][0], S[1][0], S[1][1], e.sine, e.cosine)
    ensures var d, S := Sorted(r, e), RowRotated(A, 0, 1, r);
      var W := ColumnRotated(RowRotated(A, 0, 1, d.u), 0, 1, d.v);
      && W[0][0] == d.sigma0 && W[1][1] == d.sigma1 && W[0][1] == W[1][0]
      && Abs(W[1][0]) == Abs(Cross(S[0][0], S[1][0], S[1][1], e.cosine, -e.sine, e.sine, e.cosine))
  {
    var d, S := Sorted(r, e), RowRotated(A, 0, 1, r);
    SortedQuads(r, e, S[0][0], S[1][0], S[1][1]);
    SortedCross(r, e, S[0][0], S[1][0], S[1][1]);
    SortedShape(r, e);
    RowRotatedTwice(A, 0, 1, r, d.v);
    SandwichEntries(S, d.v);
  }

  /** The 2x2 `svd` on a matrix and two rotations on the pair (0, 1): `U`, `sigma`
      and `V` receive `Decompose(A)`. */
  method Svd(A: array2<real>, U: GivensRotation, sigma: array<real>, V: GivensRotation, sqrt: real -> real)
    requires A.Length0 == A.Length1 == 2 && sigma.Length == 2
    requires U.rowi == 0 && U.rowk == 1 && U != V
    requires PositiveRoot(sqrt)
    modifies U`c, U`s, V`c, V`s, sigma
    ensures var d := Decompose(old(Cells(A)), sqrt);
      U.Pair() == d.u && V.Pair() == d.v && sigma[..] == [d.sigma0, d.sigma1]
  {
    var S := new real[2, 2];
    PolarDecomposition(A, U, S, sqrt);
    ghost var r := U.Pair();
    var x, y, z := S[0, 0], S[1, 0], S[1, 1];
    var e := Diagonal(x, y, z, sqrt);
    var cosine, sine, sigma0, sigma1 := e.cosine, e.sine, e.sigma0, e.sigma1;
    if sigma0 < sigma1 {
      sigma[0], sigma[1] := sigma1, sigma0;
      V.c := -sine;
      V.s := cosine;
    } else {
      sigma[0], sigma[1] := sigma0, sigma1;
      V.c := cosine;
      V.s := sine;
    }
    U.MulAssign(V);
    assert U.Pair() == Sorted(r, e).u && V.Pair() == Sorted(r, e).v;
    assert sigma[..] == [Sorted(r, e).sigma0, Sorted(r, e).sigma1];
  }
}

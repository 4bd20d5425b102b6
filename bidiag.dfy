/** Reduction of a 3x3 matrix to upper bidiagonal form by Givens rotations
    (`zeroChase` and `makeUpperBidiag`). In row-major display the target shape is
      x x 0
      0 x x
      0 0 x
    which, with `h[j][i]` = column `j`, row `i`, means the four entries
    `h[0][1]`, `h[0][2]`, `h[1][2]` and `h[2][0]` are zero. Every rotation applied to
    the rows of `H` is also applied to the columns of `U`, every rotation applied
    to the columns of `H` to the columns of `V`. */
module Bidiag {
  import opened Matrix
  import opened RealFacts
  import opened Givens

  /** The three matrices the reduction works on. */
  datatype Chase = Chase(h: Mat, u: Mat, v: Mat)

  predicate Is3(c: Chase) {
    IsMat(c.h, 3, 3) && IsMat(c.u, 3, 3) && IsMat(c.v, 3, 3)
  }

  predicate IsUpperBidiag(h: Mat)
    requires IsMat(h, 3, 3)
  {
    h[0][1] == 0.0 && h[0][2] == 0.0 && h[1][2] == 0.0 && h[2][0] == 0.0
  }

  /** The pair of the second rotation of `zeroChase`, computed from the matrix
      before the first rotation is applied: when `h[0][1]` is not zero, row 0
      after the first rotation is proportional to `h00*row0 + h01*row1`. */
  function SecondPair(h00: real, h01: real, h10: real, h11: real, h20: real, h21: real,
                      rsqrt: real -> real): CS
  {
    if h01 != 0.0 then
      CosSin(h00 * h10 + h01 * h11, h00 * h20 + h01 * h21, rsqrt)
    else
      CosSin(h10, h20, rsqrt)
  }

  lemma SecondPairShared(h00: real, h01: real, h10: real, h11: real, h20: real, h21: real,
                         rsqrt: real -> real)
    requires h01 != 0.0
    ensures SecondPair(h00, h01, h10, h11, h20, h21, rsqrt)
         == CosSin(h00 * h10 + h01 * h11, h00 * h20 + h01 * h21, rsqrt)
  {
  }

  lemma SecondPairAlone(h00: real, h01: real, h10: real, h11: real, h20: real, h21: real,
                        rsqrt: real -> real)
    requires h01 == 0.0
    ensures SecondPair(h00, h01, h10, h11, h20, h21, rsqrt) == CosSin(h10, h20, rsqrt)
  {
  }

  /** The second pair of `zeroChase` for the matrix `h`. */
  function SecondPairOf(h: Mat, rsqrt: real -> real): CS
    requires IsMat(h, 3, 3)
  {
    SecondPair(h[0][0], h[0][1], h[1][0], h[1][1], h[2][0], h[2][1], rsqrt)
  }

  /** `H` after the first two rotations of `zeroChase`. */
  function FirstTwo(h: Mat, rsqrt: real -> real): (r: Mat)
    requires IsMat(h, 3, 3)
    ensures IsMat(r, 3, 3)
  {
    ColumnRotated(RowRotated(h, 0, 1, CosSin(h[0][0], h[0][1], rsqrt)), 1, 2, SecondPairOf(h, rsqrt))
  }

  /** `zeroChase` as a value. */
  function ZeroChased(s: Chase, rsqrt: real -> real): (r: Chase)
    requires Is3(s)
    ensures Is3(r)
  {
    var h := s.h;
    var g1 := CosSin(h[0][0], h[0][1], rsqrt);
    var g2 := SecondPairOf(h, rsqrt);
    var h1 := FirstTwo(h, rsqrt);
    var g3 := CosSin(h1[1][1], h1[1][2], rsqrt);
    Chase(RowRotated(h1, 1, 2, g3),
          ColumnRotated(ColumnRotated(s.u, 0, 1, g1), 1, 2, g3),
          ColumnRotated(s.v, 1, 2, g2))
  }

  /** Row `i` of a column after a rotation by `CosSin(a, b)`: `(a*x + b*y)`
      scaled by the reciprocal root, or `x` itself when `a*a + b*b` is 0. */
  lemma CosSinRow(a: real, b: real, x: real, y: real, rsqrt: real -> real)
    ensures CosSin(a, b, rsqrt).c * x - CosSin(a, b, rsqrt).s * y
         == if a * a + b * b == 0.0 then x else rsqrt(a * a + b * b) * (a * x + b * y)
  {
    var d := a * a + b * b;
    if d != 0.0 {
      var t := rsqrt(d);
      assert (a * t) * x - (-b * t) * y == t * (a * x + b * y);
    }
  }

  /** A pair that zeroes `(a, b)` also zeroes every multiple of it. */
  lemma ZeroesMultiple(g: CS, a: real, b: real, t: real)
    requires g.s * a + g.c * b == 0.0
    ensures g.s * (t * a) + g.c * (t * b) == 0.0
  {
    assert g.s * (t * a) + g.c * (t * b) == t * (g.s * a + g.c * b);
  }

  /** The entries the shape depends on after a row rotation of rows 0, 1 by `g1`
      and a column rotation of columns 1, 2 by `g2`. */
  lemma FirstTwoEntries(h: Mat, g1: CS, g2: CS)
    requires IsMat(h, 3, 3)
    ensures var f := ColumnRotated(RowRotated(h, 0, 1, g1), 1, 2, g2);
      && f[0][1] == g1.s * h[0][0] + g1.c * h[0][1]
      && f[0][2] == h[0][2]
      && f[2][0] == g2.s * (g1.c * h[1][0] - g1.s * h[1][1]) + g2.c * (g1.c * h[2][0] - g1.s * h[2][1])
  {
    var r := RowRotated(h, 0, 1, g1);
    var f := ColumnRotated(r, 1, 2, g2);
    assert f[0] == r[0];
    assert f[2][0] == g2.s * r[1][0] + g2.c * r[2][0];
  }

  /** The second rotation of `zeroChase` zeroes the entry in row 0, column 2
      that the first rotation produces. */
  lemma BulgeZeroed(h00: real, h01: real, h10: real, h11: real, h20: real, h21: real,
                    g1: CS, g2: CS, rsqrt: real -> real)
    requires g1 == CosSin(h00, h01, rsqrt) && g2 == SecondPair(h00, h01, h10, h11, h20, h21, rsqrt)
    ensures g2.s * (g1.c * h10 - g1.s * h11) + g2.c * (g1.c * h20 - g1.s * h21) == 0.0
  {
    var d := h00 * h00 + h01 * h01;
    CosSinRow(h00, h01, h10, h11, rsqrt);
    CosSinRow(h00, h01, h20, h21, rsqrt);
    if d == 0.0 {
      SquaresVanish(h00, h01);
      SecondPairAlone(h00, h01, h10, h11, h20, h21, rsqrt);
      ZeroesMultiple(g2, h10, h20, 1.0);
    } else if h01 != 0.0 {
      SecondPairShared(h00, h01, h10, h11, h20, h21, rsqrt);
      ZeroesMultiple(g2, h00 * h10 + h01 * h11, h00 * h20 + h01 * h21, rsqrt(d));
    } else {
      SecondPairAlone(h00, h01, h10, h11, h20, h21, rsqrt);
      var t := rsqrt(d);
      assert t * (h00 * h10 + h01 * h11) == (t * h00) * h10;
      assert t * (h00 * h20 + h01 * h21) == (t * h00) * h20;
      ZeroesMultiple(g2, h10, h20, t * h00);
    }
  }

  /** Rotations that zero the two entries `zeroChase` aims at do zero them. */
  lemma FirstTwoZerosFor(h: Mat, g1: CS, g2: CS)
    requires IsMat(h, 3, 3)
    requires g1.s * h[0][0] + g1.c * h[0][1] == 0.0
    requires g2.s * (g1.c * h[1][0] - g1.s * h[1][1]) + g2.c * (g1.c * h[2][0] - g1.s * h[2][1]) == 0.0
    ensures var f := ColumnRotated(RowRotated(h, 0, 1, g1), 1, 2, g2);
      f[0][1] == 0.0 && f[2][0] == 0.0 && f[0][2] == h[0][2]
  {
    FirstTwoEntries(h, g1, g2);
  }

  /** The first two rotations zero `h[0][1]` and `h[2][0]`, and keep `h[0][2]`. */
  lemma FirstTwoZeros(h: Mat, rsqrt: real -> real)
    requires IsMat(h, 3, 3)
    ensures FirstTwo(h, rsqrt)[0][1] == 0.0 && FirstTwo(h, rsqrt)[2][0] == 0.0
    ensures FirstTwo(h, rsqrt)[0][2] == h[0][2]
  {
    var g1, g2 := CosSin(h[0][0], h[0][1], rsqrt), SecondPairOf(h, rsqrt);
    BulgeZeroed(h[0][0], h[0][1], h[1][0], h[1][1], h[2][0], h[2][1], g1, g2, rsqrt);
    FirstTwoZerosFor(h, g1, g2);
  }

  /** A row rotation of rows 1, 2 that zeroes row 2 of column 1 completes the
      shape, as long as column 0 is already zero below the diagonal and row 0
      of column 2 is zero. */
  lemma LastRotationShape(h: Mat, g: CS)
    requires IsMat(h, 3, 3) && h[0][1] == 0.0 && h[0][2] == 0.0 && h[2][0] == 0.0
    requires g.s * h[1][1] + g.c * h[1][2] == 0.0
    ensures IsUpperBidiag(RowRotated(h, 1, 2, g))
  {
    var r := RowRotated(h, 1, 2, g);
    assert r[0][1] == g.c * h[0][1] - g.s * h[0][2];
    assert r[0][2] == g.s * h[0][1] + g.c * h[0][2];
  }

  /** Given the documented input shape (here only `h[0][2] == 0` matters),
      `zeroChase` leaves `H` upper bidiagonal, whatever the square-root routine
      returns. */
  lemma ZeroChaseBidiag(s: Chase, rsqrt: real -> real)
    requires Is3(s) && s.h[0][2] == 0.0
    ensures IsUpperBidiag(ZeroChased(s, rsqrt).h)
  {
    var h1 := FirstTwo(s.h, rsqrt);
    FirstTwoZeros(s.h, rsqrt);
    LastRotationShape(h1, CosSin(h1[1][1], h1[1][2], rsqrt));
  }

  /** `makeUpperBidiag` as a value: `U` and `V` start at the identity. */
  function MadeUpperBidiag(h: Mat, rsqrt: real -> real): (r: Chase)
    requires IsMat(h, 3, 3)
    ensures Is3(r)
  {
    var g := CosSin(h[0][1], h[0][2], rsqrt);
    ZeroChased(Chase(RowRotated(h, 1, 2, g), ColumnRotated(Identity(3), 1, 2, g), Identity(3)), rsqrt)
  }

  /** A row rotation of rows 1, 2 that zeroes row 2 of column 0 gives the
      shape `zeroChase` expects. */
  lemma FirstRotationZero(h: Mat, g: CS)
    requires IsMat(h, 3, 3) && g.s * h[0][1] + g.c * h[0][2] == 0.0
    ensures RowRotated(h, 1, 2, g)[0][2] == 0.0
  {
  }

  /** `makeUpperBidiag` leaves every 3x3 input upper bidiagonal. */
  lemma MakeUpperBidiagShape(h: Mat, rsqrt: real -> real)
    requires IsMat(h, 3, 3)
    ensures IsUpperBidiag(MadeUpperBidiag(h, rsqrt).h)
  {
    var g := CosSin(h[0][1], h[0][2], rsqrt);
    FirstRotationZero(h, g);
    ZeroChaseBidiag(Chase(RowRotated(h, 1, 2, g), ColumnRotated(Identity(3), 1, 2, g), Identity(3)), rsqrt);
  }

  // ---------------------------------------------------------------------------
  // H == U^T * A * V

  /** `h` is `u^T * a * v`: every rotation applied to the rows of `h` is recorded
      in the columns of `u` and every rotation applied to its columns in the
      columns of `v`. */
  predicate Tracks(a: Mat, s: Chase)
    requires IsMat(a, 3, 3) && Is3(s)
  {
    s.h == Transformed(a, s.u, s.v, 3)
  }

  /** Rotating the rows of `h` and the same columns of `u` by one pair keeps
      `h == u^T * a * v`, whatever the pair. */
  lemma RowStepTracks(a: Mat, s: Chase, i: nat, k: nat, g: CS)
    requires IsMat(a, 3, 3) && Is3(s) && i < k < 3 && Tracks(a, s)
    ensures Tracks(a, Chase(RowRotated(s.h, i, k, g), ColumnRotated(s.u, i, k, g), s.v))
  {
    var m := Mul(a, s.v, 3);
    TransposeColumnRotated(s.u, 3, i, k, g);
    RowRotatedMul(Transpose(s.u, 3), m, 3, i, k, g);
  }

  /** Rotating the columns of `h` and the same columns of `v` by one pair keeps
      `h == u^T * a * v`, whatever the pair. */
  lemma ColumnStepTracks(a: Mat, s: Chase, i: nat, k: nat, g: CS)
    requires IsMat(a, 3, 3) && Is3(s) && i < k < 3 && Tracks(a, s)
    ensures Tracks(a, Chase(ColumnRotated(s.h, i, k, g), s.u, ColumnRotated(s.v, i, k, g)))
  {
    ColumnRotatedMul(a, s.v, 3, i, k, g);
    ColumnRotatedMul(Transpose(s.u, 3), Mul(a, s.v, 3), 3, i, k, g);
  }

  /** `H == A` with `U` and `V` the identity, as `svd` starts. */
  lemma StartTracks(a: Mat)
    requires IsMat(a, 3, 3)
    ensures Tracks(a, Chase(a, Identity(3), Identity(3)))
  {
    TransposeIdentity(3);
    MulIdentityRight(a, 3);
    MulIdentity(a, 3);
  }

  /** `zeroChase` keeps `H == U^T * A * V`. */
  lemma ZeroChaseTracks(a: Mat, s: Chase, rsqrt: real -> real)
    requires IsMat(a, 3, 3) && Is3(s) && Tracks(a, s)
    ensures Tracks(a, ZeroChased(s, rsqrt))
  {
    var h := s.h;
    var g1 := CosSin(h[0][0], h[0][1], rsqrt);
    var g2 := SecondPairOf(h, rsqrt);
    var s1 := Chase(RowRotated(h, 0, 1, g1), ColumnRotated(s.u, 0, 1, g1), s.v);
    RowStepTracks(a, s, 0, 1, g1);
    var s2 := Chase(ColumnRotated(s1.h, 1, 2, g2), s1.u, ColumnRotated(s.v, 1, 2, g2));
    ColumnStepTracks(a, s1, 1, 2, g2);
    assert s2.h == FirstTwo(h, rsqrt);
    var g3 := CosSin(s2.h[1][1], s2.h[1][2], rsqrt);
    RowStepTracks(a, s2, 1, 2, g3);
  }

  /** `makeUpperBidiag` ends with `H_new == U^T * H * V` for the matrix `H` it
      was given. */
  lemma MakeUpperBidiagTracks(h: Mat, rsqrt: real -> real)
    requires IsMat(h, 3, 3)
    ensures Tracks(h, MadeUpperBidiag(h, rsqrt))
  {
    var g := CosSin(h[0][1], h[0][2], rsqrt);
    StartTracks(h);
    RowStepTracks(h, Chase(h, Identity(3), Identity(3)), 1, 2, g);
    ZeroChaseTracks(h, Chase(RowRotated(h, 1, 2, g), ColumnRotated(Identity(3), 1, 2, g), Identity(3)), rsqrt);
  }

  ghost function State(H: array2<real>, U: array2<real>, V: array2<real>): Chase
    reads H, U, V
  {
    Chase(Cells(H), Cells(U), Cells(V))
  }

  predicate Three(H: array2<real>, U: array2<real>, V: array2<real>) {
    H.Length0 == H.Length1 == U.Length0 == U.Length1 == V.Length0 == V.Length1 == 3
    && H != U && H != V && U != V
  }

  /** The second rotation of `zeroChase`, built from `H` before any rotation is
      applied. */
  method SecondRotation(H: array2<real>, rsqrt: real -> real) returns (r2: GivensRotation)
    requires H.Length0 == H.Length1 == 3
    ensures fresh(r2) && r2.rowi == 1 && r2.rowk == 2
    ensures r2.Pair() == SecondPairOf(Cells(H), rsqrt)
  {
    var h00, h01, h10, h11, h20, h21 := H[0, 0], H[0, 1], H[1, 0], H[1, 1], H[2, 0], H[2, 1];
    assert SecondPairOf(Cells(H), rsqrt) == SecondPair(h00, h01, h10, h11, h20, h21, rsqrt);
    r2 := new GivensRotation(1, 2);
    if h01 != 0.0 {
      r2.Compute(h00 * h10 + h01 * h11, h00 * h20 + h01 * h21, rsqrt);
      SecondPairShared(h00, h01, h10, h11, h20, h21, rsqrt);
    } else {
      r2.Compute(h10, h20, rsqrt);
      SecondPairAlone(h00, h01, h10, h11, h20, h21, rsqrt);
    }
  }

  method ZeroChase(H: array2<real>, U: array2<real>, V: array2<real>, rsqrt: real -> real)
    requires Three(H, U, V)
    modifies H, U, V
    ensures State(H, U, V) == ZeroChased(old(State(H, U, V)), rsqrt)
  {
    ghost var s := State(H, U, V);
    var r1 := new GivensRotation.FromPair(H[0, 0], H[0, 1], 0, 1, rsqrt);
    var r2 := SecondRotation(H, rsqrt);
    r1.RowRotation(H);
    r2.ColumnRotation(H);
    r2.ColumnRotation(V);
    ghost var h1 := FirstTwo(s.h, rsqrt);
    assert Cells(H) == h1;
    var r3 := new GivensRotation.FromPair(H[1, 1], H[1, 2], 1, 2, rsqrt);
    r3.RowRotation(H);
    r1.ColumnRotation(U);
    r3.ColumnRotation(U);
  }

  method MakeUpperBidiag(H: array2<real>, U: array2<real>, V: array2<real>, rsqrt: real -> real)
    requires Three(H, U, V)
    modifies H, U, V
    ensures State(H, U, V) == MadeUpperBidiag(old(Cells(H)), rsqrt)
    ensures IsUpperBidiag(Cells(H))
    ensures Cells(H) == Transformed(old(Cells(H)), Cells(U), Cells(V), 3)
  {
    ghost var h := Cells(H);
    SetIdentity(U);
    SetIdentity(V);
    var r := new GivensRotation.FromPair(H[0, 1], H[0, 2], 1, 2, rsqrt);
    r.RowRotation(H);
    r.ColumnRotation(U);
    ZeroChase(H, U, V, rsqrt);
    MakeUpperBidiagShape(h, rsqrt);
    MakeUpperBidiagTracks(h, rsqrt);
  }
}

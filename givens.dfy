/** The plane (Givens) rotation of the SVD/QR kernel: a (cosine, sine) pair bound to
    two row or column indices `rowi` and `rowk` of a matrix it does not own. */
module Givens {
  import opened Matrix
  import opened RealFacts

  /** A (cosine, sine) pair. */
  datatype CS = CS(c: real, s: real)

  function Norm2(g: CS): real {
    g.c * g.c + g.s * g.s
  }

  /** The pair `compute(a, b)` stores: with `t` the reciprocal square root of
      `a*a + b*b`, `(c, s) = (a*t, -b*t)`, and the identity when `a*a + b*b` is 0.
      Whatever `t` the square-root routine returns, the rotation `[[c, -s], [s, c]]`
      sends `(a, b)` to `(*, 0)`. */
  function CosSin(a: real, b: real, rsqrt: real -> real): (g: CS)
    ensures g.s * a + g.c * b == 0.0
    ensures var d := a * a + b * b;
      d != 0.0 ==> g.c * a - g.s * b == d * rsqrt(d) && Norm2(g) == d * (rsqrt(d) * rsqrt(d))
    ensures a * a + b * b == 0.0 ==> g == CS(1.0, 0.0)
  {
    var d := a * a + b * b;
    if d != 0.0 then
      var t := rsqrt(d);
      assert (-b * t) * a + (a * t) * b == 0.0;
      ScaledPair(a, b, t);
      CS(a * t, -b * t)
    else
      SquaresVanish(a, b);
      CS(1.0, 0.0)
  }

  /** The pair `computeUnconventional(a, b)` stores: `(c, s) = (b*t, a*t)`, and
      `(0, 1)` when `a*a + b*b` is 0. The rotation sends `(a, b)` to `(0, *)`. */
  function CosSinUnconventional(a: real, b: real, rsqrt: real -> real): (g: CS)
    ensures g.c * a - g.s * b == 0.0
    ensures var d := a * a + b * b;
      d != 0.0 ==> g.s * a + g.c * b == d * rsqrt(d) && Norm2(g) == d * (rsqrt(d) * rsqrt(d))
    ensures a * a + b * b == 0.0 ==> g == CS(0.0, 1.0)
  {
    var d := a * a + b * b;
    if d != 0.0 then
      var t := rsqrt(d);
      assert (b * t) * a - (a * t) * b == 0.0;
      ScaledPair(a, b, t);
      CS(b * t, a * t)
    else
      SquaresVanish(a, b);
      CS(0.0, 1.0)
  }

  /** The pair `(a*t, b*t)` carries `t` times the squared length of `(a, b)`
      along `(a, b)` and has `t*t` times that squared length as its squared norm. */
  lemma ScaledPair(a: real, b: real, t: real)
    ensures (a * t) * a + (b * t) * b == (a * a + b * b) * t
    ensures (a * t) * (a * t) + (b * t) * (b * t) == (a * a + b * b) * (t * t)
    ensures (a * t) * (a * t) + (-b * t) * (-b * t) == (a * a + b * b) * (t * t)
  {
  }

  /** `transposeInPlace`: the inverse rotation. */
  function Transposed(g: CS): CS {
    CS(g.c, -g.s)
  }

  /** `operator*=` / `operator*`: pairs multiply like the complex numbers `c + i*s`. */
  function Product(x: CS, y: CS): CS {
    CS(x.c * y.c - x.s * y.s, x.s * y.c + x.c * y.s)
  }

  /** A rotation composed with its transpose leaves only the squared norm. */
  lemma ProductTransposed(g: CS)
    ensures Product(g, Transposed(g)) == CS(Norm2(g), 0.0)
  {
    assert g.s * g.c + g.c * -g.s == 0.0;
  }

  /** The norm of a product is the product of the norms, so composing unit pairs
      gives a unit pair. */
  lemma ProductNorm(x: CS, y: CS)
    ensures Norm2(Product(x, y)) == Norm2(x) * Norm2(y)
  {
    var p := Product(x, y);
    calc {
      Norm2(p);
      (x.c * y.c - x.s * y.s) * (x.c * y.c - x.s * y.s) + (x.s * y.c + x.c * y.s) * (x.s * y.c + x.c * y.s);
      (x.c * x.c) * (y.c * y.c) + (x.s * x.s) * (y.s * y.s) + (x.s * x.s) * (y.c * y.c) + (x.c * x.c) * (y.s * y.s);
      (x.c * x.c + x.s * x.s) * (y.c * y.c + y.s * y.s);
    }
  }

  /** Every column of `m` has rows `i` and `k`. */
  predicate HasRows(m: Mat, i: nat, k: nat) {
    forall j :: 0 <= j < |m| ==> i < |m[j]| && k < |m[j]|
  }

  /** `rowRotation` as a value: in every column, rows `i` and `k` become
      `(c*x - s*y, s*x + c*y)`; every other entry is kept. */
  function RowRotated(m: Mat, i: nat, k: nat, g: CS): (r: Mat)
    requires i < k && HasRows(m, i, k)
    ensures |r| == |m| && forall j :: 0 <= j < |m| ==> |r[j]| == |m[j]|
    ensures forall j, q :: 0 <= j < |m| && 0 <= q < |m[j]| && q != i && q != k ==> r[j][q] == m[j][q]
    ensures forall j :: 0 <= j < |m| ==>
      r[j][i] == g.c * m[j][i] - g.s * m[j][k] && r[j][k] == g.s * m[j][i] + g.c * m[j][k]
  {
    seq(|m|, j requires 0 <= j < |m| => seq(|m[j]|, q requires 0 <= q < |m[j]| => RowRotatedAt(m, i, k, g, j, q)))
  }

  /** Entry (column `j`, row `q`) of `RowRotated(m, i, k, g)`. */
  function RowRotatedAt(m: Mat, i: nat, k: nat, g: CS, j: nat, q: nat): real
    requires i < k && HasRows(m, i, k) && j < |m| && q < |m[j]|
  {
    if q == i then g.c * m[j][i] - g.s * m[j][k]
    else if q == k then g.s * m[j][i] + g.c * m[j][k]
    else m[j][q]
  }

  /** `columnRotation` as a value: column `i` becomes `c*col_i - s*col_k` and
      column `k` becomes `s*col_i + c*col_k`; every other column is kept. */
  function ColumnRotated(m: Mat, i: nat, k: nat, g: CS): (r: Mat)
    requires i < k < |m| && |m[i]| == |m[k]|
    ensures |r| == |m| && forall j :: 0 <= j < |m| ==> |r[j]| == |m[j]|
    ensures forall j :: 0 <= j < |m| && j != i && j != k ==> r[j] == m[j]
    ensures forall q :: 0 <= q < |m[i]| ==>
      r[i][q] == g.c * m[i][q] - g.s * m[k][q] && r[k][q] == g.s * m[i][q] + g.c * m[k][q]
  {
    seq(|m|, j requires 0 <= j < |m| => seq(|m[j]|, q requires 0 <= q < |m[j]| => ColumnRotatedAt(m, i, k, g, j, q)))
  }

  /** Entry (column `j`, row `q`) of `ColumnRotated(m, i, k, g)`. */
  function ColumnRotatedAt(m: Mat, i: nat, k: nat, g: CS, j: nat, q: nat): real
    requires i < k < |m| && |m[i]| == |m[k]| && j < |m| && q < |m[j]|
  {
    if j == i then g.c * m[i][q] - g.s * m[k][q]
    else if j == k then g.s * m[i][q] + g.c * m[k][q]
    else m[j][q]
  }

  /** `fill` as a value: the identity with `c` at `[i][i]` and `[k][k]`, `s` at
      `[k][i]` and `-s` at `[i][k]` (column, row), i.e. the block `[[c, s], [-s, c]]`
      in rows and columns `i`, `k`. */
  function FillMat(n: nat, i: nat, k: nat, g: CS): (f: Mat)
    ensures IsMat(f, n, n)
  {
    seq(n, j => seq(n, q =>
      if j == i && q == i then g.c
      else if j == k && q == i then g.s
      else if j == i && q == k then -g.s
      else if j == k && q == k then g.c
      else if j == q then 1.0 else 0.0))
  }

  /** `rowRotation` is left multiplication by the transpose of the filled matrix. */
  lemma RowRotatedIsProduct(m: Mat, n: nat, i: nat, k: nat, g: CS)
    requires IsMat(m, |m|, n) && i < k < n
    ensures RowRotated(m, i, k, g) == Mul(Transpose(FillMat(n, i, k, g), n), m, n)
  {
    var f := FillMat(n, i, k, g);
    var ft := Transpose(f, n);
    var lhs, rhs := RowRotated(m, i, k, g), Mul(ft, m, n);
    forall j, q | 0 <= j < |m| && 0 <= q < n
      ensures lhs[j][q] == rhs[j][q]
    {
      RowOfTranspose(f, n, q);
      if q == i || q == k {
        DotTwoTerms(f[q], m[j], i, k);
      } else {
        DotOneTerm(f[q], m[j], q);
      }
    }
    SameCells(lhs, rhs, |m|, n);
  }

  /** `columnRotation` is right multiplication by the filled matrix. */
  lemma ColumnRotatedIsProduct(m: Mat, rows: nat, i: nat, k: nat, g: CS)
    requires IsMat(m, |m|, rows) && i < k < |m|
    ensures ColumnRotated(m, i, k, g) == Mul(m, FillMat(|m|, i, k, g), rows)
  {
    var f := FillMat(|m|, i, k, g);
    var lhs, rhs := ColumnRotated(m, i, k, g), Mul(m, f, rows);
    forall j, q | 0 <= j < |m| && 0 <= q < rows
      ensures lhs[j][q] == rhs[j][q]
    {
      DotSymmetric(Row(m, q), f[j]);
      if j == i || j == k {
        DotTwoTerms(f[j], Row(m, q), i, k);
      } else {
        DotOneTerm(f[j], Row(m, q), j);
      }
    }
    SameCells(lhs, rhs, |m|, rows);
  }

  /** Rotating the same pair `(u, w)` by `x` and then by `y` is rotating it by
      `Product(x, y)`. */
  lemma PairTwice(u: real, w: real, x: CS, y: CS)
    ensures y.c * (x.c * u - x.s * w) - y.s * (x.s * u + x.c * w)
         == Product(x, y).c * u - Product(x, y).s * w
    ensures y.s * (x.c * u - x.s * w) + y.c * (x.s * u + x.c * w)
         == Product(x, y).s * u + Product(x, y).c * w
  {
  }

  /** Two column rotations on the same pair compose by `Product`: this is why
      `U *= V` may stand for applying `U` and then `V`. */
  lemma ColumnRotatedTwice(m: Mat, i: nat, k: nat, x: CS, y: CS)
    requires i < k < |m| && |m[i]| == |m[k]|
    ensures ColumnRotated(ColumnRotated(m, i, k, x), i, k, y) == ColumnRotated(m, i, k, Product(x, y))
  {
    var once := ColumnRotated(m, i, k, x);
    var lhs, rhs := ColumnRotated(once, i, k, y), ColumnRotated(m, i, k, Product(x, y));
    forall q | 0 <= q < |m[i]|
      ensures lhs[i][q] == rhs[i][q] && lhs[k][q] == rhs[k][q]
    {
      PairTwice(m[i][q], m[k][q], x, y);
    }
    assert lhs[i] == rhs[i] && lhs[k] == rhs[k];
  }

  /** Two row rotations on the same pair compose by `Product`. */
  lemma RowRotatedTwice(m: Mat, i: nat, k: nat, x: CS, y: CS)
    requires i < k && HasRows(m, i, k)
    ensures RowRotated(RowRotated(m, i, k, x), i, k, y) == RowRotated(m, i, k, Product(x, y))
  {
    var once := RowRotated(m, i, k, x);
    var lhs, rhs := RowRotated(once, i, k, y), RowRotated(m, i, k, Product(x, y));
    forall j | 0 <= j < |m|
      ensures lhs[j] == rhs[j]
    {
      PairTwice(m[j][i], m[j][k], x, y);
      assert forall q :: 0 <= q < |m[j]| ==> lhs[j][q] == rhs[j][q];
    }
  }

  /** The four entries where a row rotation by `x` and a column rotation by `y`
      meet, computed in either order. */
  lemma CrossTerms(a: real, b: real, a2: real, b2: real, x: CS, y: CS)
    ensures x.c * (y.c * a - y.s * a2) - x.s * (y.c * b - y.s * b2)
         == y.c * (x.c * a - x.s * b) - y.s * (x.c * a2 - x.s * b2)
    ensures x.s * (y.c * a - y.s * a2) + x.c * (y.c * b - y.s * b2)
         == y.c * (x.s * a + x.c * b) - y.s * (x.s * a2 + x.c * b2)
    ensures x.c * (y.s * a + y.c * a2) - x.s * (y.s * b + y.c * b2)
         == y.s * (x.c * a - x.s * b) + y.c * (x.c * a2 - x.s * b2)
    ensures x.s * (y.s * a + y.c * a2) + x.c * (y.s * b + y.c * b2)
         == y.s * (x.s * a + x.c * b) + y.c * (x.s * a2 + x.c * b2)
  {
  }

  /** Row `r` of a matrix whose rows `i`, `k` were rotated. */
  lemma RowOfRowRotated(x: Mat, rows: nat, i: nat, k: nat, g: CS, r: nat)
    requires IsMat(x, |x|, rows) && i < k < rows && r < rows
    ensures Row(RowRotated(x, i, k, g), r)
      == if r == i then Blend(g.c, Row(x, i), -g.s, Row(x, k))
         else if r == k then Blend(g.s, Row(x, i), g.c, Row(x, k))
         else Row(x, r)
  {
    var x1 := RowRotated(x, i, k, g);
    if r == i {
      var w := Blend(g.c, Row(x, i), -g.s, Row(x, k));
      forall q | 0 <= q < |x|
        ensures Row(x1, r)[q] == w[q]
      {
        var u, v := x[q][i], x[q][k];
        assert g.c * u - g.s * v == g.c * u + (-g.s) * v;
      }
      assert Row(x1, r) == w;
    } else if r == k {
      var w := Blend(g.s, Row(x, i), g.c, Row(x, k));
      forall q | 0 <= q < |x|
        ensures Row(x1, r)[q] == w[q]
      {
      }
      assert Row(x1, r) == w;
    } else {
      forall q | 0 <= q < |x|
        ensures Row(x1, r)[q] == Row(x, r)[q]
      {
      }
      assert Row(x1, r) == Row(x, r);
    }
  }

  /** Rotating rows of a product rotates the rows of its left factor. */
  lemma RowRotatedMul(x: Mat, y: Mat, rows: nat, i: nat, k: nat, g: CS)
    requires IsMat(x, |x|, rows) && IsMat(y, |y|, |x|) && i < k < rows
    ensures RowRotated(Mul(x, y, rows), i, k, g) == Mul(RowRotated(x, i, k, g), y, rows)
  {
    var lhs, rhs := RowRotated(Mul(x, y, rows), i, k, g), Mul(RowRotated(x, i, k, g), y, rows);
    forall q, r | 0 <= q < |y| && 0 <= r < rows
      ensures lhs[q][r] == rhs[q][r]
    {
      RowRotatedMulAt(x, y, rows, i, k, g, q, r);
    }
    SameCells(lhs, rhs, |y|, rows);
  }

  lemma RowRotatedMulAt(x: Mat, y: Mat, rows: nat, i: nat, k: nat, g: CS, q: nat, r: nat)
    requires IsMat(x, |x|, rows) && IsMat(y, |y|, |x|) && i < k < rows && q < |y| && r < rows
    ensures RowRotated(Mul(x, y, rows), i, k, g)[q][r] == Mul(RowRotated(x, i, k, g), y, rows)[q][r]
  {
    RowOfRowRotated(x, rows, i, k, g, r);
    if r == i {
      RotatedRowsMul(x, y, rows, i, k, q, g.c, -g.s);
      assert g.c * Mul(x, y, rows)[q][i] - g.s * Mul(x, y, rows)[q][k]
        == g.c * Mul(x, y, rows)[q][i] + (-g.s) * Mul(x, y, rows)[q][k];
    } else if r == k {
      RotatedRowsMul(x, y, rows, i, k, q, g.s, g.c);
    }
  }

  /** A blend of rows `i` and `k` of `x`, times column `q` of `y`, is the same
      blend of the entries of `x * y`. */
  lemma RotatedRowsMul(x: Mat, y: Mat, rows: nat, i: nat, k: nat, q: nat, a: real, b: real)
    requires IsMat(x, |x|, rows) && IsMat(y, |y|, |x|) && i < k < rows && q < |y|
    ensures Dot(Blend(a, Row(x, i), b, Row(x, k)), y[q]) == a * Mul(x, y, rows)[q][i] + b * Mul(x, y, rows)[q][k]
  {
    DotLinear(a, Row(x, i), b, Row(x, k), y[q]);
  }

  /** Rotating columns of a product rotates the columns of its right factor. */
  lemma ColumnRotatedMul(x: Mat, y: Mat, rows: nat, i: nat, k: nat, g: CS)
    requires IsMat(x, |x|, rows) && IsMat(y, |y|, |x|) && i < k < |y|
    ensures ColumnRotated(Mul(x, y, rows), i, k, g) == Mul(x, ColumnRotated(y, i, k, g), rows)
  {
    var lhs, rhs := ColumnRotated(Mul(x, y, rows), i, k, g), Mul(x, ColumnRotated(y, i, k, g), rows);
    var yr := ColumnRotated(y, i, k, g);
    forall r | 0 <= r < |x|
      ensures yr[i][r] == Blend(g.c, y[i], -g.s, y[k])[r] && yr[k][r] == Blend(g.s, y[i], g.c, y[k])[r]
    {
      assert g.c * y[i][r] - g.s * y[k][r] == g.c * y[i][r] + (-g.s) * y[k][r];
    }
    assert yr[i] == Blend(g.c, y[i], -g.s, y[k]);
    assert yr[k] == Blend(g.s, y[i], g.c, y[k]);
    forall q, r | 0 <= q < |y| && 0 <= r < rows
      ensures lhs[q][r] == rhs[q][r]
    {
      if q == i || q == k {
        var a, b := if q == i then g.c else g.s, if q == i then -g.s else g.c;
        DotSymmetric(Row(x, r), yr[q]);
        DotLinear(a, y[i], b, y[k], Row(x, r));
        DotSymmetric(Row(x, r), y[i]);
        DotSymmetric(Row(x, r), y[k]);
      }
    }
    SameCells(lhs, rhs, |y|, rows);
  }

  /** Rotating columns of `u` rotates the same rows of its transpose. */
  lemma TransposeColumnRotated(u: Mat, n: nat, i: nat, k: nat, g: CS)
    requires IsMat(u, |u|, n) && i < k < |u|
    ensures Transpose(ColumnRotated(u, i, k, g), n) == RowRotated(Transpose(u, n), i, k, g)
  {
    var lhs, rhs := Transpose(ColumnRotated(u, i, k, g), n), RowRotated(Transpose(u, n), i, k, g);
    SameCells(lhs, rhs, n, |u|);
  }

  class GivensRotation {
    var rowi: int
    var rowk: int
    var c: real
    var s: real

    function Pair(): CS
      reads this
    {
      CS(c, s)
    }

    /** `GivensRotation(rowi, rowk)`: the identity rotation on that pair. */
    constructor (rowi0: int, rowk0: int)
      ensures rowi == rowi0 && rowk == rowk0 && Pair() == CS(1.0, 0.0)
    {
      rowi, rowk := rowi0, rowk0;
      c, s := 1.0, 0.0;
    }

    /** `GivensRotation(a, b, rowi, rowk)`: the rotation `compute(a, b)` yields. */
    constructor FromPair(a: real, b: real, rowi0: int, rowk0: int, rsqrt: real -> real)
      ensures rowi == rowi0 && rowk == rowk0 && Pair() == CosSin(a, b, rsqrt)
    {
      rowi, rowk := rowi0, rowk0;
      new;
      Compute(a, b, rsqrt);
    }

    method TransposeInPlace()
      modifies this`s
      ensures Pair() == Transposed(old(Pair()))
    {
      s := -s;
    }

    method Compute(a: real, b: real, rsqrt: real -> real)
      modifies this`c, this`s
      ensures Pair() == CosSin(a, b, rsqrt)
    {
      var d := a * a + b * b;
      c := 1.0;
      s := 0.0;
      if d != 0.0 {
        var t := rsqrt(d);
        c := a * t;
        s := -b * t;
      }
    }

    method ComputeUnconventional(a: real, b: real, rsqrt: real -> real)
      modifies this`c, this`s
      ensures Pair() == CosSinUnconventional(a, b, rsqrt)
    {
      var d := a * a + b * b;
      c := 0.0;
      s := 1.0;
      if d != 0.0 {
        var t := rsqrt(d);
        s := a * t;
        c := b * t;
      }
    }

    /** Overwrites the square matrix `R` with this rotation as a full matrix. */
    method Fill(R: array2<real>)
      requires R.Length0 == R.Length1 && 0 <= rowi < rowk < R.Length0
      modifies R
      ensures Cells(R) == FillMat(R.Length0, rowi, rowk, Pair())
    {
      forall j, q | 0 <= j < R.Length0 && 0 <= q < R.Length1 {
        R[j, q] := if j == q then 1.0 else 0.0;
      }
      R[rowi, rowi] := c;
      R[rowk, rowi] := s;
      R[rowi, rowk] := -s;
      R[rowk, rowk] := c;
      SameCells(Cells(R), FillMat(R.Length0, rowi, rowk, Pair()), R.Length0, R.Length1);
    }

    /** Rotates rows `rowi` and `rowk` of `A`, column by column. */
    method RowRotation(A: array2<real>)
      requires 0 <= rowi < rowk < A.Length1
      modifies A
      ensures Cells(A) == RowRotated(old(Cells(A)), rowi, rowk, Pair())
    {
      ghost var before := Cells(A);
      var j := 0;
      while j < A.Length0
        invariant 0 <= j <= A.Length0
        invariant forall j', q :: 0 <= j' < A.Length0 && 0 <= q < A.Length1 ==>
          A[j', q] == if j' < j then RowRotatedAt(before, rowi, rowk, Pair(), j', q) else before[j'][q]
      {
        var tau1 := A[j, rowi];
        var tau2 := A[j, rowk];
        A[j, rowi] := c * tau1 - s * tau2;
        A[j, rowk] := s * tau1 + c * tau2;
        j := j + 1;
      }
      SameCells(Cells(A), RowRotated(before, rowi, rowk, Pair()), A.Length0, A.Length1);
    }

    /** Rotates columns `rowi` and `rowk` of the square matrix `A`, row by row. */
    method ColumnRotation(A: array2<real>)
      requires A.Length0 == A.Length1 && 0 <= rowi < rowk < A.Length0
      modifies A
      ensures Cells(A) == ColumnRotated(old(Cells(A)), rowi, rowk, Pair())
    {
      ghost var before := Cells(A);
      var j := 0;
      while j < A.Length1
        invariant 0 <= j <= A.Length1
        invariant forall j', q :: 0 <= j' < A.Length0 && 0 <= q < A.Length1 ==>
          A[j', q] == if q < j then ColumnRotatedAt(before, rowi, rowk, Pair(), j', q) else before[j'][q]
      {
        var tau1 := A[rowi, j];
        var tau2 := A[rowk, j];
        A[rowi, j] := c * tau1 - s * tau2;
        A[rowk, j] := s * tau1 + c * tau2;
        j := j + 1;
      }
      SameCells(Cells(A), ColumnRotated(before, rowi, rowk, Pair()), A.Length0, A.Length1);
    }

    /** `operator*=`: composes with another rotation on the same pair. */
    method MulAssign(other: GivensRotation)
      modifies this`c, this`s
      ensures Pair() == Product(old(Pair()), old(other.Pair()))
    {
      var newC := c * other.c - s * other.s;
      var newS := s * other.c + c * other.s;
      c := newC;
      s := newS;
    }

    /** `operator*`: a copy of this rotation composed with `other`. */
    method Times(other: GivensRotation) returns (r: GivensRotation)
      ensures fresh(r) && r.rowi == rowi && r.rowk == rowk
      ensures r.Pair() == Product(Pair(), other.Pair())
    {
      var g := Product(Pair(), other.Pair());
      r := new GivensRotation(rowi, rowk);
      r.c, r.s := g.c, g.s;
    }
  }
}

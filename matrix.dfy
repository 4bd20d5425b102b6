/** Dense real matrices in the column-major layout the linear-algebra code uses:
    `m[j][i]` (and `A[j, i]` for an `array2`) is the entry in column `j`, row `i`,
    so `m[j]` is column `j`, `|m|` is the number of columns and `A.Length0`
    is what the source calls `A.length()`. */
module Matrix {

  type Mat = seq<seq<real>>

  /** `m` has `cols` columns of `rows` entries each. */
  predicate IsMat(m: Mat, cols: nat, rows: nat) {
    |m| == cols && forall j :: 0 <= j < cols ==> |m[j]| == rows
  }

  /** The value held by an array, column by column. */
  ghost function Cells(A: array2<real>): (m: Mat)
    reads A
    ensures IsMat(m, A.Length0, A.Length1)
    ensures forall j, i :: 0 <= j < A.Length0 && 0 <= i < A.Length1 ==> m[j][i] == A[j, i]
  {
    seq(A.Length0, j requires 0 <= j < A.Length0 reads A =>
      seq(A.Length1, i requires 0 <= i < A.Length1 reads A => A[j, i]))
  }

  /** The `n`-by-`n` identity. */
  function Identity(n: nat): (m: Mat)
    ensures IsMat(m, n, n)
  {
    seq(n, j => seq(n, i => if i == j then 1.0 else 0.0))
  }

  /** Row `i` of `m` (one entry from each column). */
  function Row(m: Mat, i: nat): (r: seq<real>)
    requires forall j :: 0 <= j < |m| ==> i < |m[j]|
    ensures |r| == |m|
  {
    seq(|m|, j requires 0 <= j < |m| => m[j][i])
  }

  function Transpose(m: Mat, rows: nat): (t: Mat)
    requires IsMat(m, |m|, rows)
    ensures IsMat(t, rows, |m|)
    ensures forall j, i :: 0 <= j < rows && 0 <= i < |m| ==> t[j][i] == m[i][j]
  {
    seq(rows, j requires 0 <= j < rows => Row(m, j))
  }

  /** Row `q` of the transpose is column `q`. */
  lemma RowOfTranspose(m: Mat, rows: nat, q: nat)
    requires IsMat(m, |m|, rows) && q < |m|
    ensures Row(Transpose(m, rows), q) == m[q]
  {
  }

  /** The sum of the first `n` products `x[q] * y[q]`. */
  function DotTo(x: seq<real>, y: seq<real>, n: nat): real
    requires n <= |x| == |y|
  {
    if n == 0 then 0.0 else DotTo(x, y, n - 1) + x[n - 1] * y[n - 1]
  }

  function Dot(x: seq<real>, y: seq<real>): real
    requires |x| == |y|
  {
    DotTo(x, y, |x|)
  }

  /** The product `x * y` of an `rows`-by-`|x|` matrix and an `|x|`-by-`|y|` matrix:
      entry (row `r`, column `q`) is row `r` of `x` against column `q` of `y`. */
  function Mul(x: Mat, y: Mat, rows: nat): (p: Mat)
    requires IsMat(x, |x|, rows) && IsMat(y, |y|, |x|)
    ensures IsMat(p, |y|, rows)
    ensures forall q, r :: 0 <= q < |y| && 0 <= r < rows ==> p[q][r] == Dot(Row(x, r), y[q])
  {
    seq(|y|, q requires 0 <= q < |y| => seq(rows, r requires 0 <= r < rows => Dot(Row(x, r), y[q])))
  }

  /** A dot product against a vector that is zero outside positions `i` and `k`
      keeps only those two terms. */
  lemma DotTwoTerms(x: seq<real>, y: seq<real>, i: nat, k: nat)
    requires |x| == |y| && i < |x| && k < |x| && i != k
    requires forall q :: 0 <= q < |x| && q != i && q != k ==> x[q] == 0.0
    ensures Dot(x, y) == x[i] * y[i] + x[k] * y[k]
  {
    PrefixTwoTerms(x, y, i, k, |x|);
  }

  lemma {:induction false} PrefixTwoTerms(x: seq<real>, y: seq<real>, i: nat, k: nat, n: nat)
    requires n <= |x| == |y| && i < n && k < n && i != k
    requires forall q :: 0 <= q < n && q != i && q != k ==> x[q] == 0.0
    ensures DotTo(x, y, n) == x[i] * y[i] + x[k] * y[k]
  {
    if n - 1 == i {
      PrefixOneTerm(x, y, k, n - 1);
    } else if n - 1 == k {
      PrefixOneTerm(x, y, i, n - 1);
    } else {
      PrefixTwoTerms(x, y, i, k, n - 1);
    }
  }

  /** A dot product against a vector that is zero outside position `i`. */
  lemma DotOneTerm(x: seq<real>, y: seq<real>, i: nat)
    requires |x| == |y| && i < |x|
    requires forall q :: 0 <= q < |x| && q != i ==> x[q] == 0.0
    ensures Dot(x, y) == x[i] * y[i]
  {
    PrefixOneTerm(x, y, i, |x|);
  }

  lemma {:induction false} PrefixOneTerm(x: seq<real>, y: seq<real>, i: nat, n: nat)
    requires n <= |x| == |y| && i < n
    requires forall q :: 0 <= q < n && q != i ==> x[q] == 0.0
    ensures DotTo(x, y, n) == x[i] * y[i]
  {
    if n - 1 == i {
      PrefixZero(x, y, n - 1);
    } else {
      PrefixOneTerm(x, y, i, n - 1);
    }
  }

  /** A prefix sum over entries that are all zero is zero. */
  lemma {:induction false} PrefixZero(x: seq<real>, y: seq<real>, n: nat)
    requires n <= |x| == |y|
    requires forall q :: 0 <= q < n ==> x[q] == 0.0
    ensures DotTo(x, y, n) == 0.0
  {
    if n > 0 {
      PrefixZero(x, y, n - 1);
    }
  }

  /** `a * x + b * y`, entry by entry. */
  function Blend(a: real, x: seq<real>, b: real, y: seq<real>): (w: seq<real>)
    requires |x| == |y|
    ensures |w| == |x| && forall q :: 0 <= q < |x| ==> w[q] == a * x[q] + b * y[q]
  {
    seq(|x|, q requires 0 <= q < |x| => a * x[q] + b * y[q])
  }

  /** Dot products are linear in their first argument. */
  lemma DotLinear(a: real, x: seq<real>, b: real, y: seq<real>, z: seq<real>)
    requires |x| == |y| == |z|
    ensures Dot(Blend(a, x, b, y), z) == a * Dot(x, z) + b * Dot(y, z)
  {
    PrefixLinear(a, x, b, y, Blend(a, x, b, y), z, |x|);
  }

  lemma {:induction false} PrefixLinear(a: real, x: seq<real>, b: real, y: seq<real>, w: seq<real>,
                                        z: seq<real>, n: nat)
    requires n <= |x| == |y| == |z| == |w|
    requires forall q :: 0 <= q < n ==> w[q] == a * x[q] + b * y[q]
    ensures DotTo(w, z, n) == a * DotTo(x, z, n) + b * DotTo(y, z, n)
  {
    if n > 0 {
      PrefixLinear(a, x, b, y, w, z, n - 1);
      LastTermLinear(a, b, DotTo(w, z, n - 1), DotTo(x, z, n - 1), DotTo(y, z, n - 1),
                     w[n - 1], x[n - 1], y[n - 1], z[n - 1], DotTo(w, z, n), DotTo(x, z, n), DotTo(y, z, n));
    }
  }

  /** The step of `PrefixLinear`: one more term on each side. */
  lemma LastTermLinear(a: real, b: real, dw: real, dx: real, dy: real,
                       w: real, x: real, y: real, z: real, dw1: real, dx1: real, dy1: real)
    requires dw == a * dx + b * dy && w == a * x + b * y
    requires dw1 == dw + w * z && dx1 == dx + x * z && dy1 == dy + y * z
    ensures dw1 == a * dx1 + b * dy1
  {
    assert w * z == a * (x * z) + b * (y * z);
  }

  lemma DotSymmetric(x: seq<real>, y: seq<real>)
    requires |x| == |y|
    ensures Dot(x, y) == Dot(y, x)
  {
    PrefixSymmetric(x, y, |x|);
  }

  lemma {:induction false} PrefixSymmetric(x: seq<real>, y: seq<real>, n: nat)
    requires n <= |x| == |y|
    ensures DotTo(x, y, n) == DotTo(y, x, n)
  {
    if n > 0 {
      PrefixSymmetric(x, y, n - 1);
    }
  }

  /** Matrices of the same shape with the same entries are equal. */
  lemma SameCells(a: Mat, b: Mat, cols: nat, rows: nat)
    requires IsMat(a, cols, rows) && IsMat(b, cols, rows)
    requires forall j, q :: 0 <= j < cols && 0 <= q < rows ==> a[j][q] == b[j][q]
    ensures a == b
  {
    forall j | 0 <= j < cols
      ensures a[j] == b[j]
    {
    }
  }

  /** Assigning the identity to a square matrix, as `Mat3x3<T>(1.0)` and
      `MatMxN<M, M, T>(1)` do. */
  method SetIdentity(A: array2<real>)
    requires A.Length0 == A.Length1
    modifies A
    ensures Cells(A) == Identity(A.Length0)
  {
    forall j, i | 0 <= j < A.Length0 && 0 <= i < A.Length1 {
      A[j, i] := if i == j then 1.0 else 0.0;
    }
    SameCells(Cells(A), Identity(A.Length0), A.Length0, A.Length1);
  }

  /** A copy of a matrix, as `Mat3x3<T> B = A` makes. */
  method Copy(A: array2<real>) returns (B: array2<real>)
    ensures fresh(B) && B.Length0 == A.Length0 && B.Length1 == A.Length1
    ensures Cells(B) == Cells(A)
  {
    B := new real[A.Length0, A.Length1];
    forall j, i | 0 <= j < A.Length0 && 0 <= i < A.Length1 {
      B[j, i] := A[j, i];
    }
    SameCells(Cells(B), Cells(A), A.Length0, A.Length1);
  }

  /** The identity is a left unit of the product. */
  lemma MulIdentity(a: Mat, n: nat)
    requires IsMat(a, |a|, n)
    ensures Mul(Identity(n), a, n) == a
  {
    var p := Mul(Identity(n), a, n);
    forall q, r | 0 <= q < |a| && 0 <= r < n
      ensures p[q][r] == a[q][r]
    {
      DotOneTerm(Row(Identity(n), r), a[q], r);
    }
    SameCells(p, a, |a|, n);
  }

  lemma TransposeTwice(m: Mat, rows: nat)
    requires IsMat(m, |m|, rows)
    ensures Transpose(Transpose(m, rows), |m|) == m
  {
    SameCells(Transpose(Transpose(m, rows), |m|), m, |m|, rows);
  }

  /** The identity is a right unit of the product. */
  lemma MulIdentityRight(a: Mat, rows: nat)
    requires IsMat(a, |a|, rows)
    ensures Mul(a, Identity(|a|), rows) == a
  {
    var p := Mul(a, Identity(|a|), rows);
    forall q, r | 0 <= q < |a| && 0 <= r < rows
      ensures p[q][r] == a[q][r]
    {
      DotSymmetric(Row(a, r), Identity(|a|)[q]);
      DotOneTerm(Identity(|a|)[q], Row(a, r), q);
    }
    SameCells(p, a, |a|, rows);
  }

  lemma TransposeIdentity(n: nat)
    ensures Transpose(Identity(n), n) == Identity(n)
  {
    SameCells(Transpose(Identity(n), n), Identity(n), n, n);
  }

  /** The matrix `a` applied to the vector `y`. */
  function Apply(a: Mat, y: seq<real>, rows: nat): (w: seq<real>)
    requires IsMat(a, |a|, rows) && |y| == |a|
    ensures |w| == rows && forall r :: 0 <= r < rows ==> w[r] == Dot(Row(a, r), y)
  {
    seq(rows, r requires 0 <= r < rows => Dot(Row(a, r), y))
  }

  /** `u^T * a * v` for `n`-by-`n` matrices: `a` seen in the bases the columns
      of `u` and `v` form. */
  function Transformed(a: Mat, u: Mat, v: Mat, n: nat): (w: Mat)
    requires IsMat(a, n, n) && IsMat(u, n, n) && IsMat(v, n, n)
    ensures IsMat(w, n, n)
  {
    Mul(Transpose(u, n), Mul(a, v, n), n)
  }

  /** Entry (column `q`, row `r`) of `u^T * a * v` is column `r` of `u` against
      `a` applied to column `q` of `v`: it depends on those two columns only. */
  lemma TransformedAt(a: Mat, u: Mat, v: Mat, n: nat, q: nat, r: nat)
    requires IsMat(a, n, n) && IsMat(u, n, n) && IsMat(v, n, n) && q < n && r < n
    ensures Transformed(a, u, v, n)[q][r] == Dot(u[r], Apply(a, v[q], n))
  {
    RowOfTranspose(u, n, r);
    assert Mul(a, v, n)[q] == Apply(a, v[q], n);
  }

  /** `-x`, entry by entry. */
  function Negated(x: seq<real>): (y: seq<real>)
    ensures |y| == |x| && forall q :: 0 <= q < |x| ==> y[q] == -x[q]
  {
    seq(|x|, q requires 0 <= q < |x| => -x[q])
  }

  /** Negating one side of a dot product negates it. */
  lemma DotNegated(x: seq<real>, y: seq<real>)
    requires |x| == |y|
    ensures Dot(Negated(x), y) == -Dot(x, y) && Dot(y, Negated(x)) == -Dot(x, y)
  {
    assert Negated(x) == Blend(-1.0, x, 0.0, x);
    DotLinear(-1.0, x, 0.0, x, y);
    DotSymmetric(Negated(x), y);
  }

  /** Applying a matrix to a negated vector negates the result. */
  lemma ApplyNegated(a: Mat, y: seq<real>, rows: nat)
    requires IsMat(a, |a|, rows) && |y| == |a|
    ensures Apply(a, Negated(y), rows) == Negated(Apply(a, y, rows))
  {
    forall r | 0 <= r < rows
      ensures Apply(a, Negated(y), rows)[r] == Negated(Apply(a, y, rows))[r]
    {
      DotNegated(y, Row(a, r));
      DotSymmetric(y, Row(a, r));
    }
  }

  /** `A = glm::transpose(A)` for a square matrix. */
  method TransposeSquare(A: array2<real>)
    requires A.Length0 == A.Length1
    modifies A
    ensures Cells(A) == Transpose(old(Cells(A)), A.Length1)
  {
    ghost var a := Cells(A);
    var t := new real[A.Length0, A.Length1];
    forall j, i | 0 <= j < A.Length0 && 0 <= i < A.Length1 {
      t[j, i] := A[i, j];
    }
    SameCells(Cells(t), Transpose(a, A.Length1), A.Length0, A.Length1);
    Assign(A, t);
  }

  /** `R = A` into a matrix of the same shape. */
  method Assign(R: array2<real>, A: array2<real>)
    requires R.Length0 == A.Length0 && R.Length1 == A.Length1
    modifies R
    ensures Cells(R) == old(Cells(A))
  {
    ghost var a := Cells(A);
    forall j, i | 0 <= j < A.Length0 && 0 <= i < A.Length1 {
      R[j, i] := A[j, i];
    }
    SameCells(Cells(R), a, A.Length0, A.Length1);
  }
}

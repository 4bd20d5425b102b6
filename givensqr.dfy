/** Givens QR: rotations of adjacent rows that clear a matrix below its
    diagonal, column by column, each column from the bottom row up
    (`inplaceGivensR`, `simultaneousGivensQR`, `inplaceGivensQR`, `GivensQR`).

    `A` has `A.Length0` columns of `A.Length1` rows, as everywhere in this
    model; the companion matrix `Q` has as many rows as `A`. */
module GivensQR {
  import opened Matrix
  import opened Givens

  // ---------------------------------------------------------------------------
  // The sweeps as values

  /** `A` and the matrix `Q` that receives the same row rotations. */
  datatype Reduction = Reduction(a: Mat, q: Mat)

  predicate IsReduction(p: Reduction, rows: nat) {
    IsMat(p.a, |p.a|, rows) && IsMat(p.q, |p.q|, rows)
  }

  /** The loop body: `GivensRotation r(A[j][i - 1], A[j][i], i - 1, i)` applied
      to rows `i - 1`, `i` of `A` and of `Q`. */
  function Step(p: Reduction, rows: nat, j: nat, i: nat, rsqrt: real -> real): (r: Reduction)
    requires IsReduction(p, rows) && j < |p.a| && 0 < i < rows
    ensures IsReduction(r, rows) && |r.a| == |p.a| && |r.q| == |p.q|
  {
    var g := CosSin(p.a[j][i - 1], p.a[j][i], rsqrt);
    Reduction(RowRotated(p.a, i - 1, i, g), RowRotated(p.q, i - 1, i, g))
  }

  /** The inner loop for column `j`, from row `i` up to row `j + 1`. */
  function ColumnSweep(p: Reduction, rows: nat, j: nat, i: int, rsqrt: real -> real): (r: Reduction)
    requires IsReduction(p, rows) && j < |p.a| && i < rows
    ensures IsReduction(r, rows) && |r.a| == |p.a| && |r.q| == |p.q|
    decreases i
  {
    if i <= j then p else ColumnSweep(Step(p, rows, j, i, rsqrt), rows, j, i - 1, rsqrt)
  }

  /** The outer loop from column `j` on. */
  function Sweeps(p: Reduction, rows: nat, j: nat, rsqrt: real -> real): (r: Reduction)
    requires IsReduction(p, rows)
    ensures IsReduction(r, rows) && |r.a| == |p.a| && |r.q| == |p.q|
    decreases |p.a| - j
  {
    if j >= |p.a| then p else Sweeps(ColumnSweep(p, rows, j, rows - 1, rsqrt), rows, j + 1, rsqrt)
  }

  // ---------------------------------------------------------------------------
  // What the sweeps achieve

  /** Every entry below the diagonal is zero. */
  predicate UpperTriangular(a: Mat, rows: nat)
    requires IsMat(a, |a|, rows)
  {
    forall j, i :: 0 <= j < |a| && j < i < rows ==> a[j][i] == 0.0
  }

  /** Columns `0 .. n - 1` are zero below the diagonal. */
  predicate ZeroBelow(a: Mat, rows: nat, n: nat)
    requires IsMat(a, |a|, rows) && n <= |a|
  {
    forall j, i :: 0 <= j < n && j < i < rows ==> a[j][i] == 0.0
  }

  /** Column `j` is zero below row `i`. */
  predicate ZeroFrom(a: Mat, rows: nat, j: nat, i: int)
    requires IsMat(a, |a|, rows) && j < |a|
  {
    forall r :: 0 <= r && i < r < rows ==> a[j][r] == 0.0
  }

  /** A step clears row `i` of column `j` and keeps the zeros of the earlier
      columns, whose rows `i - 1` and `i` are both below their diagonal. */
  lemma StepClears(p: Reduction, rows: nat, j: nat, i: nat, rsqrt: real -> real)
    requires IsReduction(p, rows) && j < |p.a| && j < i < rows
    requires ZeroBelow(p.a, rows, j) && ZeroFrom(p.a, rows, j, i)
    ensures var a := Step(p, rows, j, i, rsqrt).a;
      ZeroBelow(a, rows, j) && ZeroFrom(a, rows, j, i - 1)
  {
    var g := CosSin(p.a[j][i - 1], p.a[j][i], rsqrt);
    var a := RowRotated(p.a, i - 1, i, g);
    assert a[j][i] == g.s * p.a[j][i - 1] + g.c * p.a[j][i] == 0.0;
    forall j', r | 0 <= j' < j && j' < r < rows
      ensures a[j'][r] == 0.0
    {
      if r == i - 1 || r == i {
        assert p.a[j'][i - 1] == 0.0 && p.a[j'][i] == 0.0;
        assert a[j'][i - 1] == g.c * 0.0 - g.s * 0.0;
        assert a[j'][i] == g.s * 0.0 + g.c * 0.0;
      }
    }
  }

  /** The inner loop leaves column `j` zero below its diagonal. */
  lemma {:induction false} ColumnSweepClears(p: Reduction, rows: nat, j: nat, i: int, rsqrt: real -> real)
    requires IsReduction(p, rows) && j < |p.a| && i < rows
    requires ZeroBelow(p.a, rows, j) && ZeroFrom(p.a, rows, j, i)
    ensures ZeroBelow(ColumnSweep(p, rows, j, i, rsqrt).a, rows, j + 1)
    decreases i
  {
    if i <= j {
      forall r | 0 <= r && j < r < rows
        ensures p.a[j][r] == 0.0
      {
      }
    } else {
      var p1 := Step(p, rows, j, i, rsqrt);
      StepClears(p, rows, j, i, rsqrt);
      ColumnSweepClears(p1, rows, j, i - 1, rsqrt);
      SweepStep(p, p1, rows, j, i, i - 1, rsqrt);
    }
  }

  /** The outer loop leaves `A` upper triangular. */
  lemma {:induction false} SweepsTriangular(p: Reduction, rows: nat, j: nat, rsqrt: real -> real)
    requires IsReduction(p, rows) && j <= |p.a| && ZeroBelow(p.a, rows, j)
    ensures UpperTriangular(Sweeps(p, rows, j, rsqrt).a, rows)
    decreases |p.a| - j
  {
    if j < |p.a| {
      var p1 := ColumnSweep(p, rows, j, rows - 1, rsqrt);
      ColumnSweepClears(p, rows, j, rows - 1, rsqrt);
      SweepsTriangular(p1, rows, j + 1, rsqrt);
      assert Sweeps(p, rows, j, rsqrt) == Sweeps(p1, rows, j + 1, rsqrt);
    }
  }

  /** `A` is `Q * A0`. */
  predicate Factors(p: Reduction, a0: Mat, rows: nat)
    requires IsReduction(p, rows) && |p.q| == rows && IsMat(a0, |p.a|, rows)
  {
    p.a == Mul(p.q, a0, rows)
  }

  /** While `A` is `Q * A0`, a step keeps it so: the same rotation goes to both. */
  lemma StepKeepsProduct(p: Reduction, a0: Mat, rows: nat, j: nat, i: nat, rsqrt: real -> real)
    requires IsReduction(p, rows) && j < |p.a| && 0 < i < rows
    requires |p.q| == rows && IsMat(a0, |p.a|, rows) && Factors(p, a0, rows)
    ensures Factors(Step(p, rows, j, i, rsqrt), a0, rows)
  {
    RowRotatedMul(p.q, a0, rows, i - 1, i, CosSin(p.a[j][i - 1], p.a[j][i], rsqrt));
  }

  lemma {:induction false} ColumnSweepKeepsProduct(p: Reduction, a0: Mat, rows: nat, j: nat, i: int, rsqrt: real -> real)
    requires IsReduction(p, rows) && j < |p.a| && i < rows
    requires |p.q| == rows && IsMat(a0, |p.a|, rows) && Factors(p, a0, rows)
    ensures Factors(ColumnSweep(p, rows, j, i, rsqrt), a0, rows)
    decreases i
  {
    if i > j {
      var p1 := Step(p, rows, j, i, rsqrt);
      StepKeepsProduct(p, a0, rows, j, i, rsqrt);
      ColumnSweepKeepsProduct(p1, a0, rows, j, i - 1, rsqrt);
      SweepStep(p, p1, rows, j, i, i - 1, rsqrt);
    }
  }

  lemma {:induction false} SweepsKeepProduct(p: Reduction, a0: Mat, rows: nat, j: nat, rsqrt: real -> real)
    requires IsReduction(p, rows) && |p.q| == rows && IsMat(a0, |p.a|, rows) && Factors(p, a0, rows)
    ensures Factors(Sweeps(p, rows, j, rsqrt), a0, rows)
    decreases |p.a| - j
  {
    if j < |p.a| {
      var p1 := ColumnSweep(p, rows, j, rows - 1, rsqrt);
      ColumnSweepKeepsProduct(p, a0, rows, j, rows - 1, rsqrt);
      SweepsKeepProduct(p1, a0, rows, j + 1, rsqrt);
      assert Sweeps(p, rows, j, rsqrt) == Sweeps(p1, rows, j + 1, rsqrt);
    }
  }

  /** The rotations are chosen from `A` alone: what `Q` holds does not change
      what happens to `A`. */
  lemma {:induction false} SweepsIgnoreQ(a: Mat, q1: Mat, q2: Mat, rows: nat, j: nat, rsqrt: real -> real)
    requires IsReduction(Reduction(a, q1), rows) && IsReduction(Reduction(a, q2), rows)
    ensures Sweeps(Reduction(a, q1), rows, j, rsqrt).a == Sweeps(Reduction(a, q2), rows, j, rsqrt).a
    decreases |a| - j
  {
    if j < |a| {
      var p1 := ColumnSweep(Reduction(a, q1), rows, j, rows - 1, rsqrt);
      var p2 := ColumnSweep(Reduction(a, q2), rows, j, rows - 1, rsqrt);
      ColumnSweepIgnoresQ(a, q1, q2, rows, j, rows - 1, rsqrt);
      SweepsIgnoreQ(p1.a, p1.q, p2.q, rows, j + 1, rsqrt);
      assert Reduction(p2.a, p2.q) == p2;
    }
  }

  lemma {:induction false} ColumnSweepIgnoresQ(a: Mat, q1: Mat, q2: Mat, rows: nat, j: nat, i: int, rsqrt: real -> real)
    requires IsReduction(Reduction(a, q1), rows) && IsReduction(Reduction(a, q2), rows) && j < |a| && i < rows
    ensures ColumnSweep(Reduction(a, q1), rows, j, i, rsqrt).a == ColumnSweep(Reduction(a, q2), rows, j, i, rsqrt).a
    decreases i
  {
    if i > j {
      var p1 := Step(Reduction(a, q1), rows, j, i, rsqrt);
      var p2 := Step(Reduction(a, q2), rows, j, i, rsqrt);
      assert p1.a == p2.a;
      ColumnSweepIgnoresQ(p1.a, p1.q, p2.q, rows, j, i - 1, rsqrt);
      assert Reduction(p1.a, p1.q) == p1 && Reduction(p2.a, p2.q) == p2;
      SweepStep(Reduction(a, q1), p1, rows, j, i, i - 1, rsqrt);
      SweepStep(Reduction(a, q2), p2, rows, j, i, i - 1, rsqrt);
    }
  }

  /** The QR factorization of `inplaceGivensQR`: started from `Q = I`, the sweeps
      leave an upper triangular `R` with `R == Q * A0`, so that `Q^T`, which the
      source returns, is the first factor up to the orthogonality of the
      rotations. */
  lemma Factorization(a0: Mat, rows: nat, rsqrt: real -> real)
    requires IsMat(a0, |a0|, rows)
    ensures var r := Sweeps(Reduction(a0, Identity(rows)), rows, 0, rsqrt);
      UpperTriangular(r.a, rows) && r.a == Mul(r.q, a0, rows)
  {
    SweepsTriangular(Reduction(a0, Identity(rows)), rows, 0, rsqrt);
    MulIdentity(a0, rows);
    SweepsKeepProduct(Reduction(a0, Identity(rows)), a0, rows, 0, rsqrt);
  }

  // ---------------------------------------------------------------------------
  // The methods

  /** `inplaceGivensR(A)`: the sweeps on `A` alone. */
  method InplaceGivensR(A: array2<real>, rsqrt: real -> real)
    modifies A
    ensures Cells(A) == Sweeps(Reduction(old(Cells(A)), []), A.Length1, 0, rsqrt).a
    ensures UpperTriangular(Cells(A), A.Length1)
  {
    ghost var p0 := Reduction(Cells(A), []);
    var j := 0;
    while j < A.Length0
      invariant 0 <= j <= A.Length0
      invariant Sweeps(Reduction(Cells(A), []), A.Length1, j, rsqrt) == Sweeps(p0, A.Length1, 0, rsqrt)
    {
      ClearColumnR(A, j, rsqrt);
      j := j + 1;
    }
    SweepsTriangular(p0, A.Length1, 0, rsqrt);
  }

  /** The inner loop of `inplaceGivensR` for column `j`. */
  method ClearColumnR(A: array2<real>, j: nat, rsqrt: real -> real)
    requires j < A.Length0
    modifies A
    ensures Reduction(Cells(A), []) == ColumnSweep(Reduction(old(Cells(A)), []), A.Length1, j, A.Length1 - 1, rsqrt)
  {
    ghost var pj := Reduction(Cells(A), []);
    var i := A.Length1 - 1;
    while i > j
      invariant i < A.Length1
      invariant ColumnSweep(Reduction(Cells(A), []), A.Length1, j, i, rsqrt)
        == ColumnSweep(pj, A.Length1, j, A.Length1 - 1, rsqrt)
    {
      ghost var before := Reduction(Cells(A), []);
      var r := new GivensRotation.FromPair(A[j, i - 1], A[j, i], i - 1, i, rsqrt);
      r.RowRotation(A);
      var next := i - 1;
      SweepStep(before, Reduction(Cells(A), []), A.Length1, j, i, next, rsqrt);
      i := next;
    }
  }

  /** `simultaneousGivensQR(A, Q)`: each rotation that clears an entry of `A`
      is applied to the rows of `Q` as well. */
  method SimultaneousGivensQR(A: array2<real>, Q: array2<real>, rsqrt: real -> real)
    requires A != Q && Q.Length1 == A.Length1
    modifies A, Q
    ensures Reduction(Cells(A), Cells(Q)) == Sweeps(Reduction(old(Cells(A)), old(Cells(Q))), A.Length1, 0, rsqrt)
  {
    ghost var p0 := Current(A, Q);
    var j := 0;
    while j < A.Length0
      invariant 0 <= j <= A.Length0
      invariant Sweeps(Current(A, Q), A.Length1, j, rsqrt) == Sweeps(p0, A.Length1, 0, rsqrt)
    {
      ClearColumn(A, Q, j, rsqrt);
      j := j + 1;
    }
  }

  /** The inner loop of `simultaneousGivensQR` for column `j`. */
  method ClearColumn(A: array2<real>, Q: array2<real>, j: nat, rsqrt: real -> real)
    requires A != Q && Q.Length1 == A.Length1 && j < A.Length0
    modifies A, Q
    ensures Current(A, Q) == ColumnSweep(old(Current(A, Q)), A.Length1, j, A.Length1 - 1, rsqrt)
  {
    ghost var pj := Current(A, Q);
    var i := A.Length1 - 1;
    while i > j
      invariant i < A.Length1
      invariant ColumnSweep(Current(A, Q), A.Length1, j, i, rsqrt) == ColumnSweep(pj, A.Length1, j, A.Length1 - 1, rsqrt)
    {
      ghost var before := Current(A, Q);
      RotatePair(A, Q, j, i, rsqrt);
      var next := i - 1;
      SweepStep(before, Current(A, Q), A.Length1, j, i, next, rsqrt);
      i := next;
    }
  }

  /** One turn of the inner loop. */
  lemma SweepStep(p: Reduction, p1: Reduction, rows: nat, j: nat, i: nat, i1: int, rsqrt: real -> real)
    requires IsReduction(p, rows) && j < |p.a| && j < i < rows
    requires p1 == Step(p, rows, j, i, rsqrt) && i1 == i - 1
    ensures ColumnSweep(p, rows, j, i, rsqrt) == ColumnSweep(p1, rows, j, i1, rsqrt)
  {
    assert ColumnSweep(p, rows, j, i, rsqrt) == ColumnSweep(Step(p, rows, j, i, rsqrt), rows, j, i - 1, rsqrt);
  }

  /** The matrices `A` and `Q` as a value. */
  ghost function Current(A: array2<real>, Q: array2<real>): (p: Reduction)
    requires Q.Length1 == A.Length1
    reads A, Q
    ensures IsReduction(p, A.Length1) && |p.a| == A.Length0 && |p.q| == Q.Length0
  {
    Reduction(Cells(A), Cells(Q))
  }

  /** The loop body of `simultaneousGivensQR`. */
  method RotatePair(A: array2<real>, Q: array2<real>, j: nat, i: nat, rsqrt: real -> real)
    requires A != Q && Q.Length1 == A.Length1 && j < A.Length0 && 0 < i < A.Length1
    modifies A, Q
    ensures Current(A, Q) == Step(old(Current(A, Q)), A.Length1, j, i, rsqrt)
  {
    ghost var q0 := Cells(Q);
    var r := new GivensRotation.FromPair(A[j, i - 1], A[j, i], i - 1, i, rsqrt);
    r.RowRotation(A);
    assert Cells(Q) == q0;
    r.RowRotation(Q);
  }

  /** `inplaceGivensQR(A, Q)`: `Q` starts as the identity, takes the rotations
      of the sweeps and is transposed at the end, so that `R = Q^T * A0`. */
  method InplaceGivensQR(A: array2<real>, Q: array2<real>, rsqrt: real -> real)
    requires A != Q && Q.Length0 == Q.Length1 == A.Length1
    modifies A, Q
    ensures var r := Sweeps(Reduction(old(Cells(A)), Identity(A.Length1)), A.Length1, 0, rsqrt);
      Cells(A) == r.a && Cells(Q) == Transpose(r.q, A.Length1)
    ensures UpperTriangular(Cells(A), A.Length1)
    ensures Cells(A) == Mul(Transpose(Cells(Q), A.Length1), old(Cells(A)), A.Length1)
  {
    ghost var a0 := Cells(A);
    SetIdentity(Q);
    SimultaneousGivensQR(A, Q, rsqrt);
    ghost var qt := Cells(Q);
    TransposeSquare(Q);
    Factorization(a0, A.Length1, rsqrt);
    TransposeTwice(qt, A.Length1);
  }

  /** The overload of `inplaceGivensQR` that returns `Q`. */
  method InplaceGivensQRReturning(A: array2<real>, rsqrt: real -> real) returns (Q: array2<real>)
    modifies A
    ensures fresh(Q) && Q.Length0 == Q.Length1 == A.Length1
    ensures UpperTriangular(Cells(A), A.Length1)
    ensures Cells(A) == Mul(Transpose(Cells(Q), A.Length1), old(Cells(A)), A.Length1)
  {
    Q := new real[A.Length1, A.Length1];
    InplaceGivensQR(A, Q, rsqrt);
  }

  /** `GivensQR(A, Q, R)`: `R = A`, then `inplaceGivensQR(R, Q)`. */
  method Factor(A: array2<real>, Q: array2<real>, R: array2<real>, rsqrt: real -> real)
    requires Q != R && R.Length0 == A.Length0 && R.Length1 == A.Length1 && Q.Length0 == Q.Length1 == A.Length1
    modifies Q, R
    ensures UpperTriangular(Cells(R), A.Length1)
    ensures Cells(R) == Mul(Transpose(Cells(Q), A.Length1), old(Cells(A)), A.Length1)
  {
    Assign(R, A);
    InplaceGivensQR(R, Q, rsqrt);
  }

  /** The overload of `GivensQR` that returns the pair `(Q, R)` in fresh matrices. */
  method FactorPair(A: array2<real>, rsqrt: real -> real) returns (Q: array2<real>, R: array2<real>)
    ensures fresh(Q) && fresh(R) && Q != R
    ensures Q.Length0 == Q.Length1 == A.Length1 && R.Length0 == A.Length0 && R.Length1 == A.Length1
    ensures UpperTriangular(Cells(R), A.Length1)
    ensures Cells(R) == Mul(Transpose(Cells(Q), A.Length1), Cells(A), A.Length1)
  {
    Q := new real[A.Length1, A.Length1];
    R := new real[A.Length0, A.Length1];
    Factor(A, Q, R, rsqrt);
  }
}

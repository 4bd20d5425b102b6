/** The 3x3 SVD of the kernel: implicitly shifted QR sweeps on the upper
    bidiagonal form until one of its five non-zero entries falls below the
    tolerance, then the deflation of that entry, the 2x2 SVD of the block that
    is left (`process<t>`) and the sort of the values (`sort0` / `sort1`).

    Entries are named as in `svd`: with `h[j][i]` = column `j`, row `i`,
      alpha_1 = h[0][0], beta_1 = h[1][0], alpha_2 = h[1][1],
      beta_2 = h[2][1],  alpha_3 = h[2][2]. */
module Svd3 {
  import opened Matrix
  import opened RealFacts
  import opened Givens
  import Bidiag
  import opened Svd2
  import SortNet

  // ---------------------------------------------------------------------------
  // The Wilkinson shift

  /** `copysign(x, y)`: the magnitude of `x` with the sign of `y`. A real number
      has no negative zero, so `y == 0` counts as positive. */
  function CopySign(x: real, y: real): (r: real)
    ensures Abs(r) == Abs(x) && (y < 0.0 ==> r <= 0.0) && (y >= 0.0 ==> r >= 0.0)
  {
    if y < 0.0 then -Abs(x) else Abs(x)
  }

  lemma ProductNonZero(a: real, b: real)
    requires a != 0.0 && b != 0.0
    ensures a * b != 0.0
  {
    if a * b == 0.0 {
      CancelFactor(a, b);
    }
  }

  /** `wilkinsonShift(a1, b1, a2)` for the symmetric block
        a1 b1
        b1 a2
      The denominator is 0 only for the diagonal block with equal entries. The
      shift moves from `a2` away from `a1`. */
  function WilkinsonShift(a1: real, b1: real, a2: real, sqrt: real -> real): (mu: real)
    requires (a1 != a2 || b1 != 0.0) && PositiveRoot(sqrt)
    ensures a1 >= a2 ==> mu <= a2
    ensures a1 < a2 ==> mu >= a2
  {
    Shift(a2, 0.5 * (a1 - a2), b1, sqrt)
  }

  /** `a2 - copysign(b1^2 / (|d| + sqrt(d^2 + b1^2)), d)`, with `d` standing for
      `(a1 - a2) / 2`. */
  function Shift(a2: real, d: real, b1: real, sqrt: real -> real): (mu: real)
    requires (d != 0.0 || b1 != 0.0) && PositiveRoot(sqrt)
    ensures d >= 0.0 ==> mu <= a2
    ensures d < 0.0 ==> mu >= a2
  {
    ShiftDenominator(d, b1, sqrt);
    ShiftStepNonNegative(d, b1, sqrt(d * d + b1 * b1));
    a2 - CopySign(ShiftStep(d, b1, sqrt(d * d + b1 * b1)), d)
  }

  /** The definition of `Shift`, stated apart so that callers that fix `d` by an
      equation see the same terms as the definition. */
  lemma ShiftValue(a2: real, d: real, b1: real, sqrt: real -> real)
    requires (d != 0.0 || b1 != 0.0) && PositiveRoot(sqrt)
    ensures Abs(d) + sqrt(d * d + b1 * b1) > 0.0
    ensures Shift(a2, d, b1, sqrt) == a2 - CopySign(ShiftStep(d, b1, sqrt(d * d + b1 * b1)), d)
  {
    ShiftDenominator(d, b1, sqrt);
  }

  /** `b1^2 / (|d| + w)`, the size of the step from `a2`. */
  function ShiftStep(d: real, b1: real, w: real): real
    requires Abs(d) + w > 0.0
  {
    b1 * b1 / (Abs(d) + w)
  }

  lemma ShiftStepNonNegative(d: real, b1: real, w: real)
    requires Abs(d) + w > 0.0
    ensures ShiftStep(d, b1, w) >= 0.0
  {
    SquareNonNegative(b1);
    QuotientNonNegative(b1 * b1, Abs(d) + w);
  }

  /** The denominator of the shift is positive. */
  lemma ShiftDenominator(d: real, b1: real, sqrt: real -> real)
    requires (d != 0.0 || b1 != 0.0) && PositiveRoot(sqrt)
    ensures Abs(d) + sqrt(d * d + b1 * b1) > 0.0
  {
    SquaresPositiveEither(d, b1);
    assert PositiveAt(sqrt, d * d + b1 * b1);
  }

  lemma QuotientNonNegative(a: real, b: real)
    requires a >= 0.0 && b > 0.0
    ensures a / b >= 0.0
  {
  }

  /** With an exact root the shift is an eigenvalue of the block, and of the two
      eigenvalues it is the one nearer to `a2`. */
  lemma ShiftIsNearerEigenvalue(a1: real, b1: real, a2: real, sqrt: real -> real)
    requires (a1 != a2 || b1 != 0.0) && ExactRoot(sqrt)
    ensures PositiveRoot(sqrt)
    ensures var mu := WilkinsonShift(a1, b1, a2, sqrt);
      (a1 - mu) * (a2 - mu) == b1 * b1 && Abs(a2 - mu) <= Abs(a1 - mu)
  {
    ExactIsPositive(sqrt);
    ShiftRoot(a1, b1, a2, 0.5 * (a1 - a2), sqrt);
  }

  lemma ShiftRoot(a1: real, b1: real, a2: real, d: real, sqrt: real -> real)
    requires d == 0.5 * (a1 - a2) && (d != 0.0 || b1 != 0.0)
    requires ExactRoot(sqrt) && PositiveRoot(sqrt)
    ensures var mu := Shift(a2, d, b1, sqrt);
      (a1 - mu) * (a2 - mu) == b1 * b1 && Abs(a2 - mu) <= Abs(a1 - mu)
  {
    SquareNonNegative(d);
    SquareNonNegative(b1);
    assert RootAt(sqrt, d * d + b1 * b1);
    var w := sqrt(d * d + b1 * b1);
    ShiftDenominator(d, b1, sqrt);
    var q := ShiftStep(d, b1, w);
    ShiftQuotient(d, b1 * b1, w, q);
    ShiftStepNonNegative(d, b1, w);
    ShiftValue(a2, d, b1, sqrt);
    ShiftScalar(a1, a2, b1, d, w, q);
  }

  /** `b^2 / (|d| + w)` is `w - |d|` when `w^2 = d^2 + b^2`. */
  lemma ShiftQuotient(d: real, bs: real, w: real, q: real)
    requires w >= 0.0 && w * w == d * d + bs && Abs(d) + w > 0.0
    requires q * (Abs(d) + w) == bs
    ensures q == w - Abs(d)
  {
    assert Abs(d) * Abs(d) == d * d;
    assert (w - Abs(d)) * (Abs(d) + w) == bs;
    assert (q - (w - Abs(d))) * (Abs(d) + w) == 0.0;
    CancelFactor(q - (w - Abs(d)), Abs(d) + w);
  }

  lemma ShiftScalar(a1: real, a2: real, b1: real, d: real, w: real, q: real)
    requires d == 0.5 * (a1 - a2) && w >= 0.0 && w * w == d * d + b1 * b1
    requires q == w - Abs(d) && q >= 0.0
    ensures var mu := a2 - CopySign(q, d);
      (a1 - mu) * (a2 - mu) == b1 * b1 && Abs(a2 - mu) <= Abs(a1 - mu)
  {
    if d >= 0.0 {
      assert a2 - CopySign(q, d) == a2 - q;
      assert (d + w) * (w - d) == w * w - d * d;
    } else {
      assert a2 - CopySign(q, d) == a2 + q;
      assert (d - w) * (-(w + d)) == w * w - d * d;
    }
  }

  // ---------------------------------------------------------------------------
  // The shift loop

  /** The loop guard of `svd` fails: one of the five entries is within `tol`
      of 0. */
  predicate Converged(h: Mat, tol: real)
    requires IsMat(h, 3, 3)
  {
    Abs(h[2][1]) <= tol || Abs(h[1][0]) <= tol || Abs(h[0][0]) <= tol
    || Abs(h[1][1]) <= tol || Abs(h[2][2]) <= tol
  }

  /** The rotation that starts a sweep: it turns `(alpha_1^2 - mu, alpha_1 beta_1)`,
      the first column of `B^T B - mu I`, onto its first axis, where `mu` is the
      Wilkinson shift of the trailing 2x2 block of `B^T B`. */
  function ShiftPair(a1: real, b1: real, a2: real, a3: real, b2: real, rsqrt: real -> real, sqrt: real -> real): CS
    requires a2 != 0.0 && b2 != 0.0 && PositiveRoot(sqrt)
  {
    ProductNonZero(a2, b2);
    var mu := WilkinsonShift(a2 * a2 + b1 * b1, a2 * b2, a3 * a3 + b2 * b2, sqrt);
    CosSin(a1 * a1 - mu, a1 * b1, rsqrt)
  }

  /** One pass of the loop body: columns 0, 1 of `B` and `V` rotated by the
      shifted pair, then `zeroChase`. */
  function Sweep(s: Bidiag.Chase, rsqrt: real -> real, sqrt: real -> real): (r: Bidiag.Chase)
    requires Bidiag.Is3(s) && s.h[1][1] != 0.0 && s.h[2][1] != 0.0 && PositiveRoot(sqrt)
    ensures Bidiag.Is3(r)
  {
    var h := s.h;
    var g := ShiftPair(h[0][0], h[1][0], h[1][1], h[2][2], h[2][1], rsqrt, sqrt);
    Bidiag.ZeroChased(Bidiag.Chase(ColumnRotated(s.h, 0, 1, g), s.u, ColumnRotated(s.v, 0, 1, g)), rsqrt)
  }

  /** A sweep keeps `B` upper bidiagonal. */
  lemma SweepKeepsBidiag(s: Bidiag.Chase, rsqrt: real -> real, sqrt: real -> real)
    requires Bidiag.Is3(s) && s.h[1][1] != 0.0 && s.h[2][1] != 0.0 && PositiveRoot(sqrt)
    requires Bidiag.IsUpperBidiag(s.h)
    ensures Bidiag.IsUpperBidiag(Sweep(s, rsqrt, sqrt).h)
  {
    var h := s.h;
    var g := ShiftPair(h[0][0], h[1][0], h[1][1], h[2][2], h[2][1], rsqrt, sqrt);
    var h1 := ColumnRotated(s.h, 0, 1, g);
    assert h1[0][2] == g.c * s.h[0][2] - g.s * s.h[1][2];
    Bidiag.ZeroChaseBidiag(Bidiag.Chase(h1, s.u, ColumnRotated(s.v, 0, 1, g)), rsqrt);
  }

  /** Where the loop stopped and how many sweeps it made. */
  datatype Run = Run(s: Bidiag.Chase, count: nat)

  /** The shift loop from sweep `count` on, cut off after `fuel` sweeps. It
      stops early only when the guard fails. */
  function Iterate(s: Bidiag.Chase, tol: real, count: nat, fuel: nat, rsqrt: real -> real, sqrt: real -> real): (r: Run)
    requires Bidiag.Is3(s) && tol >= 0.0 && PositiveRoot(sqrt)
    ensures Bidiag.Is3(r.s) && count <= r.count && (count <= fuel ==> r.count <= fuel)
    ensures r.count < fuel ==> Converged(r.s.h, tol)
    decreases fuel - count
  {
    if Converged(s.h, tol) || count >= fuel then Run(s, count)
    else Iterate(Sweep(s, rsqrt, sqrt), tol, count + 1, fuel, rsqrt, sqrt)
  }

  /** The loop keeps `B` upper bidiagonal. */
  lemma {:induction false} IterateKeepsBidiag(s: Bidiag.Chase, tol: real, count: nat, fuel: nat, rsqrt: real -> real, sqrt: real -> real)
    requires Bidiag.Is3(s) && tol >= 0.0 && PositiveRoot(sqrt) && Bidiag.IsUpperBidiag(s.h)
    ensures Bidiag.IsUpperBidiag(Iterate(s, tol, count, fuel, rsqrt, sqrt).s.h)
    decreases fuel - count
  {
    if !(Converged(s.h, tol) || count >= fuel) {
      SweepKeepsBidiag(s, rsqrt, sqrt);
      IterateKeepsBidiag(Sweep(s, rsqrt, sqrt), tol, count + 1, fuel, rsqrt, sqrt);
    }
  }

  // ---------------------------------------------------------------------------
  // Deflation

  /** The five ways out of the loop, in the order `svd` tests them, and the
      case where the sweeps were cut off before any of them held. */
  datatype Deflation = Beta2Small | Beta1Small | Alpha2Small | Alpha3Small | Alpha1Small | Unconverged

  /** The branch of the dispatch after the loop that `svd` takes. Every way the
      loop guard can fail is handled by one of the five branches. */
  function CaseOf(h: Mat, tol: real): (c: Deflation)
    requires IsMat(h, 3, 3)
    ensures c == Unconverged <==> !Converged(h, tol)
  {
    if Abs(h[2][1]) <= tol then Beta2Small
    else if Abs(h[1][0]) <= tol then Beta1Small
    else if Abs(h[1][1]) <= tol then Alpha2Small
    else if Abs(h[2][2]) <= tol then Alpha3Small
    else if Abs(h[0][0]) <= tol then Alpha1Small
    else Unconverged
  }

  /** The entry whose smallness selects the case. */
  function Tested(h: Mat, c: Deflation): real
    requires IsMat(h, 3, 3)
  {
    match c
    case Beta2Small => h[2][1]
    case Beta1Small => h[1][0]
    case Alpha2Small => h[1][1]
    case Alpha3Small => h[2][2]
    case Alpha1Small => h[0][0]
    case Unconverged => 1.0
  }

  /** The offset `t` of the `process<t>` call of a case: the upper block for
      `beta_2` and the `alpha_2`, `alpha_3` reductions, the lower block for `beta_1`
      and the `alpha_1` reduction. */
  function BlockOf(c: Deflation): nat {
    if c == Beta1Small || c == Alpha1Small then 1 else 0
  }

  /** The rotations a case applies before `process`: for `alpha_2` the rows 1, 2
      of `B` (and the columns of `U`) to clear `beta_2`; for `alpha_3` the columns
      1, 2 and then 0, 2 of `B` (and of `V`) to clear `beta_2` and the entry that
      appears in row 0 of column 2; for `alpha_1` the rows 0, 1 and then 0, 2 of
      `B` (and the columns of `U`) to clear `beta_1` and the entry that appears in
      row 0 of column 2. The other cases rotate nothing. */
  function Reduced(s: Bidiag.Chase, c: Deflation, rsqrt: real -> real): (r: Bidiag.Chase)
    requires Bidiag.Is3(s)
    ensures Bidiag.Is3(r)
  {
    match c
    case Alpha2Small => ReducedAlpha2(s, rsqrt)
    case Alpha3Small => ReducedAlpha3(s, rsqrt)
    case Alpha1Small => ReducedAlpha1(s, rsqrt)
    case _ => s
  }

  /** The rotation of the `alpha_2` case. */
  function ReducedAlpha2(s: Bidiag.Chase, rsqrt: real -> real): (r: Bidiag.Chase)
    requires Bidiag.Is3(s)
    ensures Bidiag.Is3(r)
  {
    var r1 := CosSinUnconventional(s.h[2][1], s.h[2][2], rsqrt);
    Bidiag.Chase(RowRotated(s.h, 1, 2, r1), ColumnRotated(s.u, 1, 2, r1), s.v)
  }

  /** The two rotations of the `alpha_3` case. */
  function ReducedAlpha3(s: Bidiag.Chase, rsqrt: real -> real): (r: Bidiag.Chase)
    requires Bidiag.Is3(s)
    ensures Bidiag.Is3(r)
  {
    var r1 := CosSin(s.h[1][1], s.h[2][1], rsqrt);
    var h1 := ColumnRotated(s.h, 1, 2, r1);
    var r2 := CosSin(h1[0][0], h1[2][0], rsqrt);
    Bidiag.Chase(ColumnRotated(h1, 0, 2, r2), s.u, ColumnRotated(ColumnRotated(s.v, 1, 2, r1), 0, 2, r2))
  }

  /** The two rotations of the `alpha_1` case. */
  function ReducedAlpha1(s: Bidiag.Chase, rsqrt: real -> real): (r: Bidiag.Chase)
    requires Bidiag.Is3(s)
    ensures Bidiag.Is3(r)
  {
    var r1 := CosSinUnconventional(s.h[1][0], s.h[1][1], rsqrt);
    var h1 := RowRotated(s.h, 0, 1, r1);
    var r2 := CosSinUnconventional(h1[2][0], h1[2][2], rsqrt);
    Bidiag.Chase(RowRotated(h1, 0, 2, r2), ColumnRotated(ColumnRotated(s.u, 0, 1, r1), 0, 2, r2), s.v)
  }

  /** `h` is block diagonal around block `t`: outside the 2x2 block at rows and
      columns `t`, `t + 1` only the remaining diagonal entry may be non-zero. */
  predicate Splits(h: Mat, t: nat)
    requires IsMat(h, 3, 3) && t <= 1
  {
    if t == 0 then h[2][0] == 0.0 && h[2][1] == 0.0 && h[0][2] == 0.0 && h[1][2] == 0.0
    else h[1][0] == 0.0 && h[2][0] == 0.0 && h[0][1] == 0.0 && h[0][2] == 0.0
  }

  /** The rotations of the `alpha` cases clear the entries they aim at, whatever
      the size of the small entry. */
  lemma ReducedClears(s: Bidiag.Chase, c: Deflation, rsqrt: real -> real)
    requires Bidiag.Is3(s) && Bidiag.IsUpperBidiag(s.h)
    ensures var h := Reduced(s, c, rsqrt).h;
      && (c == Alpha2Small ==> h[2][1] == 0.0)
      && (c == Alpha3Small ==> h[2][1] == 0.0 && h[2][0] == 0.0)
      && (c == Alpha1Small ==> h[1][0] == 0.0 && h[2][0] == 0.0)
  {
    match c
    case Alpha2Small =>
    case Alpha3Small => Alpha3Reduced(s, rsqrt);
    case Alpha1Small => Alpha1Reduced(s, rsqrt);
    case _ =>
  }

  /** When the tested entry is exactly zero, the dispatch leaves `B` split
      around the block that `process` then diagonalizes. */
  lemma ReducedSplits(s: Bidiag.Chase, c: Deflation, rsqrt: real -> real)
    requires Bidiag.Is3(s) && Bidiag.IsUpperBidiag(s.h)
    requires c != Unconverged && Tested(s.h, c) == 0.0
    ensures Splits(Reduced(s, c, rsqrt).h, BlockOf(c))
  {
    match c
    case Beta2Small =>
    case Beta1Small =>
    case Alpha2Small => Alpha2Reduced(s, rsqrt);
    case Alpha3Small => Alpha3Reduced(s, rsqrt);
    case Alpha1Small => Alpha1Reduced(s, rsqrt);
  }

  lemma Alpha2Reduced(s: Bidiag.Chase, rsqrt: real -> real)
    requires Bidiag.Is3(s) && Bidiag.IsUpperBidiag(s.h)
    ensures var h := Reduced(s, Alpha2Small, rsqrt).h;
      h[2][1] == 0.0 && h[2][0] == 0.0 && h[0][2] == 0.0
      && h[1][2] == RowRotated(s.h, 1, 2, CosSinUnconventional(s.h[2][1], s.h[2][2], rsqrt))[1][2]
      && (s.h[1][1] == 0.0 ==> h[1][2] == 0.0)
  {
    var h := s.h;
    var r1 := CosSinUnconventional(h[2][1], h[2][2], rsqrt);
    var h1 := RowRotated(h, 1, 2, r1);
    assert h1[2][1] == r1.c * h[2][1] - r1.s * h[2][2];
    assert h1[1][2] == r1.s * h[1][1] + r1.c * h[1][2];
    assert h1[0][2] == r1.s * h[0][1] + r1.c * h[0][2];
  }

  lemma Alpha3Reduced(s: Bidiag.Chase, rsqrt: real -> real)
    requires Bidiag.Is3(s) && Bidiag.IsUpperBidiag(s.h)
    ensures var h := Reduced(s, Alpha3Small, rsqrt).h;
      h[2][1] == 0.0 && h[2][0] == 0.0
      && (s.h[2][2] == 0.0 ==> h[0][2] == 0.0 && h[1][2] == 0.0)
  {
    var h := s.h;
    var r1 := CosSin(h[1][1], h[2][1], rsqrt);
    Alpha3First(h, r1);
    var h1 := ColumnRotated(h, 1, 2, r1);
    Alpha3Second(h1, CosSin(h1[0][0], h1[2][0], rsqrt));
  }

  /** Columns 1, 2 rotated so that `beta_2` vanishes. */
  lemma Alpha3First(h: Mat, g: CS)
    requires IsMat(h, 3, 3) && Bidiag.IsUpperBidiag(h) && g.s * h[1][1] + g.c * h[2][1] == 0.0
    ensures var h1 := ColumnRotated(h, 1, 2, g);
      h1[0] == h[0] && h1[2][1] == 0.0 && (h[2][2] == 0.0 ==> h1[1][2] == 0.0 && h1[2][2] == 0.0)
  {
    var h1 := ColumnRotated(h, 1, 2, g);
    assert h1[2][1] == g.s * h[1][1] + g.c * h[2][1];
    assert h1[1][2] == g.c * h[1][2] - g.s * h[2][2] && h1[2][2] == g.s * h[1][2] + g.c * h[2][2];
  }

  /** Columns 0, 2 rotated so that row 0 of column 2 vanishes. */
  lemma Alpha3Second(h1: Mat, g: CS)
    requires IsMat(h1, 3, 3) && g.s * h1[0][0] + g.c * h1[2][0] == 0.0
    requires h1[0][1] == 0.0 && h1[2][1] == 0.0
    ensures var h2 := ColumnRotated(h1, 0, 2, g);
      h2[2][0] == 0.0 && h2[2][1] == 0.0 && h2[1] == h1[1]
      && (h1[0][2] == 0.0 && h1[2][2] == 0.0 ==> h2[0][2] == 0.0)
  {
  }

  lemma Alpha1Reduced(s: Bidiag.Chase, rsqrt: real -> real)
    requires Bidiag.Is3(s) && Bidiag.IsUpperBidiag(s.h)
    ensures var h := Reduced(s, Alpha1Small, rsqrt).h;
      h[1][0] == 0.0 && h[2][0] == 0.0
      && (s.h[0][0] == 0.0 ==> h[0][1] == 0.0 && h[0][2] == 0.0)
  {
    var h := s.h;
    var r1 := CosSinUnconventional(h[1][0], h[1][1], rsqrt);
    Alpha1First(h, r1);
    var h1 := RowRotated(h, 0, 1, r1);
    Alpha1Second(h1, CosSinUnconventional(h1[2][0], h1[2][2], rsqrt));
  }

  /** Rows 0, 1 rotated so that `beta_1` vanishes. */
  lemma Alpha1First(h: Mat, g: CS)
    requires IsMat(h, 3, 3) && Bidiag.IsUpperBidiag(h) && g.c * h[1][0] - g.s * h[1][1] == 0.0
    ensures var h1 := RowRotated(h, 0, 1, g);
      h1[1][0] == 0.0 && h1[1][2] == 0.0 && h1[0][2] == 0.0
      && (h[0][0] == 0.0 ==> h1[0][0] == 0.0 && h1[0][1] == 0.0)
  {
    var h1 := RowRotated(h, 0, 1, g);
    assert h1[0][0] == g.c * h[0][0] - g.s * h[0][1];
    assert h1[0][1] == g.s * h[0][0] + g.c * h[0][1];
  }

  /** Rows 0, 2 rotated so that row 0 of column 2 vanishes. */
  lemma Alpha1Second(h1: Mat, g: CS)
    requires IsMat(h1, 3, 3) && g.c * h1[2][0] - g.s * h1[2][2] == 0.0
    requires h1[1][0] == 0.0 && h1[1][2] == 0.0
    ensures var h2 := RowRotated(h1, 0, 2, g);
      h2[2][0] == 0.0 && h2[1][0] == 0.0 && h2[0][1] == h1[0][1]
      && (h1[0][0] == 0.0 && h1[0][2] == 0.0 ==> h2[0][2] == 0.0)
  {
    var h2 := RowRotated(h1, 0, 2, g);
    assert h2[0][2] == g.s * h1[0][0] + g.c * h1[0][2];
  }

  // ---------------------------------------------------------------------------
  // process<t>

  /** The 2x2 block of `h` at rows and columns `t`, `t + 1`, which `process<t>`
      copies into the matrix it hands to the 2x2 SVD. */
  function Block(h: Mat, t: nat): (a: Mat)
    requires IsMat(h, 3, 3) && t <= 1
    ensures IsMat(a, 2, 2)
  {
    [[h[t][t], h[t][t + 1]], [h[t + 1][t], h[t + 1][t + 1]]]
  }

  /** The second half of `process<t>` as a value: the values `d.sigma0`,
      `d.sigma1` of a 2x2 SVD go to `sigma[t]`, `sigma[t + 1]`, `x` to the
      remaining value, and the rotations `d.u`, `d.v`, moved to the pair
      (`t`, `t + 1`), to the columns of `u` and `v`. */
  function Installed(u: Mat, v: Mat, t: nat, x: real, d: Decomposition2): (r: SortNet.Frame)
    requires IsMat(u, 3, 3) && IsMat(v, 3, 3) && t <= 1
    ensures SortNet.IsFrame(r)
  {
    var sigma := if t == 0 then [d.sigma0, d.sigma1, x] else [x, d.sigma0, d.sigma1];
    SortNet.Frame(ColumnRotated(u, t, t + 1, d.u), sigma, ColumnRotated(v, t, t + 1, d.v))
  }

  /** `process<t>` as a value: the 2x2 SVD of the block of `h` at `t`,
      installed with the remaining diagonal entry of `h`. */
  function Processed(h: Mat, f: SortNet.Frame, t: nat, sqrt: real -> real): (r: SortNet.Frame)
    requires IsMat(h, 3, 3) && SortNet.IsFrame(f) && t <= 1 && PositiveRoot(sqrt)
    ensures SortNet.IsFrame(r)
  {
    Installed(f.u, f.v, t, h[2 - 2 * t][2 - 2 * t], Decompose(Block(h, t), sqrt))
  }

  /** A rotation of rows `t`, `t + 1` of `h` is the rotation of rows 0, 1 of its
      block: moving the pair by `t` moves the rotation onto the block. */
  lemma BlockRowRotated(h: Mat, t: nat, g: CS)
    requires IsMat(h, 3, 3) && t <= 1
    ensures Block(RowRotated(h, t, t + 1, g), t) == RowRotated(Block(h, t), 0, 1, g)
  {
    var a, b := Block(RowRotated(h, t, t + 1, g), t), RowRotated(Block(h, t), 0, 1, g);
    assert a[0][0] == b[0][0] && a[0][1] == b[0][1];
    assert a[1][0] == b[1][0] && a[1][1] == b[1][1];
    SameCells(a, b, 2, 2);
  }

  /** The same for a rotation of columns `t`, `t + 1`. */
  lemma BlockColumnRotated(h: Mat, t: nat, g: CS)
    requires IsMat(h, 3, 3) && t <= 1
    ensures Block(ColumnRotated(h, t, t + 1, g), t) == ColumnRotated(Block(h, t), 0, 1, g)
  {
    var a, b := Block(ColumnRotated(h, t, t + 1, g), t), ColumnRotated(Block(h, t), 0, 1, g);
    assert a[0][0] == b[0][0] && a[0][1] == b[0][1];
    assert a[1][0] == b[1][0] && a[1][1] == b[1][1];
    SameCells(a, b, 2, 2);
  }

  /** Rotations of the pair (`t`, `t + 1`) keep a matrix split around block `t`
      and leave the remaining diagonal entry alone. */
  lemma RotationsKeepSplit(h: Mat, t: nat, u: CS, v: CS)
    requires IsMat(h, 3, 3) && t <= 1 && Splits(h, t)
    ensures var W := ColumnRotated(RowRotated(h, t, t + 1, u), t, t + 1, v);
      Splits(W, t) && W[2 - 2 * t][2 - 2 * t] == h[2 - 2 * t][2 - 2 * t]
  {
    if t == 0 {
      RotationsKeepSplit0(h, u, v);
    } else {
      RotationsKeepSplit1(h, u, v);
    }
  }

  lemma RotationsKeepSplit0(h: Mat, u: CS, v: CS)
    requires IsMat(h, 3, 3) && Splits(h, 0)
    ensures var W := ColumnRotated(RowRotated(h, 0, 1, u), 0, 1, v);
      Splits(W, 0) && W[2][2] == h[2][2]
  {
    var T := RowRotated(h, 0, 1, u);
    assert T[2][0] == u.c * 0.0 - u.s * 0.0 && T[2][1] == u.s * 0.0 + u.c * 0.0;
    assert T[2][2] == h[2][2] && T[0][2] == 0.0 && T[1][2] == 0.0;
    var W := ColumnRotated(T, 0, 1, v);
    assert W[2] == T[2];
    assert W[0][2] == v.c * 0.0 - v.s * 0.0 && W[1][2] == v.s * 0.0 + v.c * 0.0;
  }

  lemma RotationsKeepSplit1(h: Mat, u: CS, v: CS)
    requires IsMat(h, 3, 3) && Splits(h, 1)
    ensures var W := ColumnRotated(RowRotated(h, 1, 2, u), 1, 2, v);
      Splits(W, 1) && W[0][0] == h[0][0]
  {
    var T := RowRotated(h, 1, 2, u);
    assert T[0][1] == u.c * 0.0 - u.s * 0.0 && T[0][2] == u.s * 0.0 + u.c * 0.0;
    assert T[0][0] == h[0][0] && T[1][0] == 0.0 && T[2][0] == 0.0;
    var W := ColumnRotated(T, 1, 2, v);
    assert W[0] == T[0];
    assert W[1][0] == v.c * 0.0 - v.s * 0.0 && W[2][0] == v.s * 0.0 + v.c * 0.0;
  }

  /** With exact roots, `process<t>` on a matrix split around block `t`
      diagonalizes it: rotating the rows of `B` by the `U` rotation and its
      columns by the `V` rotation leaves the new `sigma` on the diagonal, zeros
      outside the block, and an off-diagonal pair in the block that is below
      `1e-20` (it is 0 unless the polar step left such a tiny entry). */
  lemma ProcessDiagonalizes(h: Mat, t: nat, f: SortNet.Frame, sqrt: real -> real)
    requires IsMat(h, 3, 3) && t <= 1 && Splits(h, t) && SortNet.IsFrame(f) && ExactRoot(sqrt)
    ensures PositiveRoot(sqrt)
    ensures var d := Decompose(Block(h, t), sqrt);
      var W := ColumnRotated(RowRotated(h, t, t + 1, d.u), t, t + 1, d.v);
      var sigma := Processed(h, f, t, sqrt).sigma;
      && Splits(W, t) && W[0][0] == sigma[0] && W[1][1] == sigma[1] && W[2][2] == sigma[2]
      && W[t][t + 1] == W[t + 1][t] && Abs(W[t + 1][t]) < Tiny
  {
    ExactIsPositive(sqrt);
    var d := Decompose(Block(h, t), sqrt);
    RotationsKeepSplit(h, t, d.u, d.v);
    BlockRowRotated(h, t, d.u);
    BlockColumnRotated(RowRotated(h, t, t + 1, d.u), t, d.v);
    DecomposeDiagonalizes(Block(h, t), sqrt);
  }

  /** The copy-in loops of `process<t>`: the block of `B` and the two values of
      `sigma` at `t`, `t + 1`. */
  method CopyIn(t: int, B: array2<real>, sigma: array<real>) returns (A: array2<real>, s: array<real>)
    requires t == 0 || t == 1
    requires B.Length0 == B.Length1 == 3 && sigma.Length == 3
    ensures fresh(A) && fresh(s) && A.Length0 == A.Length1 == 2 && s.Length == 2
    ensures Cells(A) == Block(Cells(B), t) && s[..] == sigma[t..t + 2]
  {
    A := new real[2, 2];
    s := new real[2];
    for j := 0 to 2
      invariant forall j', i :: 0 <= j' < j && 0 <= i < 2 ==> A[i, j'] == B[i + t, j' + t]
      invariant forall j' :: 0 <= j' < j ==> s[j'] == sigma[j' + t]
    {
      s[j] := sigma[j + t];
      for i := 0 to 2
        invariant forall j', i' :: 0 <= j' < j && 0 <= i' < 2 ==> A[i', j'] == B[i' + t, j' + t]
        invariant forall i' :: 0 <= i' < i ==> A[i', j] == B[i' + t, j + t]
        invariant forall j' :: 0 <= j' <= j ==> s[j'] == sigma[j' + t]
      {
        A[i, j] := B[i + t, j + t];
      }
    }
    SameCells(Cells(A), Block(Cells(B), t), 2, 2);
  }

  /** The 2x2 `svd` that `process<t>` runs on its copy of the block, with the
      rotations it declares on the pair (0, 1). */
  method BlockSvd(A: array2<real>, s: array<real>, sqrt: real -> real) returns (u: GivensRotation, v: GivensRotation)
    requires A.Length0 == A.Length1 == 2 && s.Length == 2 && PositiveRoot(sqrt)
    modifies s
    ensures fresh(u) && fresh(v) && u != v && u.rowi == 0 && u.rowk == 1 && v.rowi == 0 && v.rowk == 1
    ensures Decomposition2(u.Pair(), s[0], s[1], v.Pair()) == Decompose(Cells(A), sqrt)
  {
    u := new GivensRotation(0, 1);
    v := new GivensRotation(0, 1);
    Svd(A, u, s, v, sqrt);
  }

  /** The rest of `process<t>` once the 2x2 `svd` has run: the copy-out loop
      for the values, the move of the two rotations to the pair (`t`, `t + 1`),
      and the rotation of the columns of `U` and `V`. */
  method Install(t: int, s: array<real>, u: GivensRotation, v: GivensRotation, U: array2<real>, sigma: array<real>, V: array2<real>)
    requires t == 0 || t == 1
    requires s.Length == 2 && SortNet.Arrays3(U, sigma, V) && s != sigma
    requires u.rowi == 0 && u.rowk == 1 && v.rowi == 0 && v.rowk == 1 && u != v
    modifies sigma, U, V, u`rowi, u`rowk, v`rowi, v`rowk
    ensures SortNet.State(U, sigma, V)
      == old(Installed(Cells(U), Cells(V), t, sigma[2 - 2 * t], Decomposition2(u.Pair(), s[0], s[1], v.Pair())))
  {
    ghost var u0, v0, x := Cells(U), Cells(V), sigma[2 - 2 * t];
    ghost var d := Decomposition2(u.Pair(), s[0], s[1], v.Pair());
    for j := 0 to 2
      modifies sigma
      invariant forall j' :: 0 <= j' < 3 ==> sigma[j'] == if t <= j' < t + j then s[j' - t] else old(sigma[j'])
    {
      sigma[j + t] := s[j];
    }
    ghost var r := Installed(u0, v0, t, x, d);
    assert sigma[..] == r.sigma;
    u.rowi, u.rowk := u.rowi + t, u.rowk + t;
    v.rowi, v.rowk := v.rowi + t, v.rowk + t;
    assert Cells(U) == u0 && u.Pair() == d.u && u.rowi == t && u.rowk == t + 1;
    u.ColumnRotation(U);
    assert Cells(U) == r.u;
    assert Cells(V) == v0 && v.Pair() == d.v && v.rowi == t && v.rowk == t + 1;
    v.ColumnRotation(V);
    assert Cells(V) == r.v;
  }

  /** `process<t>`. The block goes through the 2x2 `svd` on a copy; copying it
      back into `B` writes the same values, so `B` is left as it was. */
  method Process(t: int, B: array2<real>, U: array2<real>, sigma: array<real>, V: array2<real>, sqrt: real -> real)
    requires t == 0 || t == 1
    requires B.Length0 == B.Length1 == 3 && SortNet.Arrays3(U, sigma, V) && B != U && B != V
    requires PositiveRoot(sqrt)
    modifies U, sigma, V
    ensures SortNet.State(U, sigma, V) == Processed(old(Cells(B)), old(SortNet.State(U, sigma, V)), t, sqrt)
  {
    ghost var h, u0, v0 := Cells(B), Cells(U), Cells(V);
    ghost var f := SortNet.State(U, sigma, V);
    var other := if t == 1 then 0 else 2;
    sigma[other] := B[other, other];
    var A, s := CopyIn(t, B, sigma);
    assert Cells(A) == Block(h, t);
    var u, v := BlockSvd(A, s, sqrt);
    ghost var d := Decomposition2(u.Pair(), s[0], s[1], v.Pair());
    assert d == Decompose(Block(h, t), sqrt);
    assert Cells(U) == u0 && Cells(V) == v0 && sigma[2 - 2 * t] == h[2 - 2 * t][2 - 2 * t];
    assert Installed(Cells(U), Cells(V), t, sigma[2 - 2 * t], d) == Processed(h, f, t, sqrt);
    Install(t, s, u, v, U, sigma, V);
  }

  // ---------------------------------------------------------------------------
  // The 3x3 svd as a value

  /** `MathHelpers::max`. */
  function Max(a: real, b: real): (m: real)
    ensures m >= a && m >= b && (m == a || m == b)
  {
    if a < b then b else a
  }

  /** A non-negative number scaled by a factor of at least 1 does not shrink. */
  lemma ScaleNotBelow(tol: real, m: real)
    requires tol >= 0.0 && m >= 1.0
    ensures tol * m >= tol
  {
    assert tol * m - tol == tol * (m - 1.0);
  }

  /** The tolerance of the loop: `tol` scaled by `max(|B| / 2, 1)`, with `|B|`
      the root of the sum of the squares of the five entries of the bidiagonal
      form. */
  function ScaledTol(a1: real, b1: real, a2: real, a3: real, b2: real, tol: real, sqrt: real -> real): (r: real)
    requires tol >= 0.0
    ensures r >= tol
  {
    var m := Max(0.5 * sqrt(a1 * a1 + a2 * a2 + a3 * a3 + b1 * b1 + b2 * b2), 1.0);
    ScaleNotBelow(tol, m);
    tol * m
  }

  /** The dispatch after the loop as a value: the rotations of case `c`, then
      `process<t>` on the block of the case and `sort0` / `sort1`. When the sweeps
      were cut off before any case held, nothing happens. */
  function Finished(s: Bidiag.Chase, sigma: seq<real>, c: Deflation, rsqrt: real -> real, sqrt: real -> real): (f: SortNet.Frame)
    requires Bidiag.Is3(s) && |sigma| == 3 && PositiveRoot(sqrt)
    ensures SortNet.IsFrame(f)
  {
    if c == Unconverged then SortNet.Frame(s.u, sigma, s.v)
    else Deflated(Reduced(s, c, rsqrt), sigma, BlockOf(c), sqrt)
  }

  /** `process<t>` followed by `sort0` (for `t == 0`) or `sort1`. */
  function Deflated(s: Bidiag.Chase, sigma: seq<real>, t: nat, sqrt: real -> real): (f: SortNet.Frame)
    requires Bidiag.Is3(s) && |sigma| == 3 && t <= 1 && PositiveRoot(sqrt)
    ensures SortNet.IsFrame(f)
  {
    var f := Processed(s.h, SortNet.Frame(s.u, sigma, s.v), t, sqrt);
    if t == 0 then SortNet.Sorted0(f) else SortNet.Sorted1(f)
  }

  /** What `svd` leaves in `U`, `sigma`, `V` and the count it returns. */
  datatype Outcome = Outcome(f: SortNet.Frame, count: nat)

  /** The 3x3 `svd` as a value, the loop cut off after `fuel` sweeps:
      `makeUpperBidiag`, the scaled tolerance, the shift loop and the dispatch. */
  function Decomposed(a: Mat, sigma: seq<real>, tol: real, fuel: nat, rsqrt: real -> real, sqrt: real -> real): (o: Outcome)
    requires IsMat(a, 3, 3) && |sigma| == 3 && tol >= 0.0 && PositiveRoot(sqrt)
    ensures SortNet.IsFrame(o.f) && o.count <= fuel
  {
    var run := Loop(a, tol, fuel, rsqrt, sqrt);
    Outcome(Finished(run.s, sigma, CaseOf(run.s.h, LoopTol(a, tol, rsqrt, sqrt)), rsqrt, sqrt), run.count)
  }

  /** The tolerance the loop of `svd` uses for `a`. */
  function LoopTol(a: Mat, tol: real, rsqrt: real -> real, sqrt: real -> real): (r: real)
    requires IsMat(a, 3, 3) && tol >= 0.0
    ensures r >= tol
  {
    var h := Bidiag.MadeUpperBidiag(a, rsqrt).h;
    ScaledTol(h[0][0], h[1][0], h[1][1], h[2][2], h[2][1], tol, sqrt)
  }

  /** Where the shift loop of `svd` stops for `a`. */
  function Loop(a: Mat, tol: real, fuel: nat, rsqrt: real -> real, sqrt: real -> real): (r: Run)
    requires IsMat(a, 3, 3) && tol >= 0.0 && PositiveRoot(sqrt)
    ensures Bidiag.Is3(r.s) && r.count <= fuel
  {
    Iterate(Bidiag.MadeUpperBidiag(a, rsqrt), LoopTol(a, tol, rsqrt, sqrt), 0, fuel, rsqrt, sqrt)
  }

  /** With exact roots, every case of the dispatch leaves the values sorted by
      decreasing magnitude with only the last one possibly negative. */
  lemma FinishedOrdered(s: Bidiag.Chase, sigma: seq<real>, c: Deflation, rsqrt: real -> real, sqrt: real -> real)
    requires Bidiag.Is3(s) && |sigma| == 3 && ExactRoot(sqrt) && c != Unconverged
    ensures PositiveRoot(sqrt) && SortNet.Ordered(Finished(s, sigma, c, rsqrt, sqrt).sigma)
  {
    ExactIsPositive(sqrt);
    var s1 := Reduced(s, c, rsqrt);
    var t := BlockOf(c);
    DecomposeMagnitude(Block(s1.h, t), sqrt);
    var f := Processed(s1.h, SortNet.Frame(s1.u, sigma, s1.v), t, sqrt);
    if t == 0 {
      SortNet.Sorted0Orders(f);
    } else {
      SortNet.Sorted1Orders(f);
    }
  }

  /** The sort after `process<t>` neither changes `U diag(sigma) V^T` nor the
      magnitudes of the values. */
  lemma FinishedKeeps(s: Bidiag.Chase, sigma: seq<real>, c: Deflation, rsqrt: real -> real, sqrt: real -> real)
    requires Bidiag.Is3(s) && |sigma| == 3 && PositiveRoot(sqrt) && c != Unconverged
    ensures var s1 := Reduced(s, c, rsqrt);
      var f := Processed(s1.h, SortNet.Frame(s1.u, sigma, s1.v), BlockOf(c), sqrt);
      var r := Finished(s, sigma, c, rsqrt, sqrt);
      SortNet.Recon(r) == SortNet.Recon(f) && SortNet.Magnitudes(r) == SortNet.Magnitudes(f)
  {
    var s1 := Reduced(s, c, rsqrt);
    var f := Processed(s1.h, SortNet.Frame(s1.u, sigma, s1.v), BlockOf(c), sqrt);
    if BlockOf(c) == 0 {
      SortNet.Sorted0Keeps(f);
    } else {
      SortNet.Sorted1Keeps(f);
    }
  }

  /** When the loop stops before the fuel runs out, one of the five cases
      holds, and with exact roots `svd` returns sorted values; the loop never
      runs more sweeps than the fuel allows. */
  lemma DecomposedOrdered(a: Mat, sigma: seq<real>, tol: real, fuel: nat, rsqrt: real -> real, sqrt: real -> real)
    requires IsMat(a, 3, 3) && |sigma| == 3 && tol >= 0.0 && ExactRoot(sqrt)
    ensures PositiveRoot(sqrt)
    ensures var o := Decomposed(a, sigma, tol, fuel, rsqrt, sqrt);
      o.count < fuel ==> SortNet.Ordered(o.f.sigma)
  {
    ExactIsPositive(sqrt);
    var run := Loop(a, tol, fuel, rsqrt, sqrt);
    if run.count < fuel {
      FinishedOrdered(run.s, sigma, CaseOf(run.s.h, LoopTol(a, tol, rsqrt, sqrt)), rsqrt, sqrt);
    }
  }

  // ---------------------------------------------------------------------------
  // B == U^T * A * V

  /** A sweep keeps `B == U^T * A * V`. */
  lemma SweepTracks(a: Mat, s: Bidiag.Chase, rsqrt: real -> real, sqrt: real -> real)
    requires IsMat(a, 3, 3) && Bidiag.Is3(s) && s.h[1][1] != 0.0 && s.h[2][1] != 0.0 && PositiveRoot(sqrt)
    requires Bidiag.Tracks(a, s)
    ensures Bidiag.Tracks(a, Sweep(s, rsqrt, sqrt))
  {
    var h := s.h;
    var g := ShiftPair(h[0][0], h[1][0], h[1][1], h[2][2], h[2][1], rsqrt, sqrt);
    Bidiag.ColumnStepTracks(a, s, 0, 1, g);
    Bidiag.ZeroChaseTracks(a, Bidiag.Chase(ColumnRotated(s.h, 0, 1, g), s.u, ColumnRotated(s.v, 0, 1, g)), rsqrt);
  }

  /** The shift loop keeps `B == U^T * A * V`. */
  lemma {:induction false} IterateTracks(a: Mat, s: Bidiag.Chase, tol: real, count: nat, fuel: nat,
                                         rsqrt: real -> real, sqrt: real -> real)
    requires IsMat(a, 3, 3) && Bidiag.Is3(s) && tol >= 0.0 && PositiveRoot(sqrt) && Bidiag.Tracks(a, s)
    ensures Bidiag.Tracks(a, Iterate(s, tol, count, fuel, rsqrt, sqrt).s)
    decreases fuel - count
  {
    if !(Converged(s.h, tol) || count >= fuel) {
      SweepTracks(a, s, rsqrt, sqrt);
      IterateTracks(a, Sweep(s, rsqrt, sqrt), tol, count + 1, fuel, rsqrt, sqrt);
    }
  }

  /** Wherever the loop of `svd` stops, `B == U^T * A * V` for the `A` it was
      given, whatever the square-root routines return. */
  lemma LoopTracks(a: Mat, tol: real, fuel: nat, rsqrt: real -> real, sqrt: real -> real)
    requires IsMat(a, 3, 3) && tol >= 0.0 && PositiveRoot(sqrt)
    ensures Bidiag.Tracks(a, Loop(a, tol, fuel, rsqrt, sqrt).s)
  {
    Bidiag.MakeUpperBidiagTracks(a, rsqrt);
    IterateTracks(a, Bidiag.MadeUpperBidiag(a, rsqrt), LoopTol(a, tol, rsqrt, sqrt), 0, fuel, rsqrt, sqrt);
  }

  /** The rotations of every case keep `B == U^T * A * V`. */
  lemma ReducedTracks(a: Mat, s: Bidiag.Chase, c: Deflation, rsqrt: real -> real)
    requires IsMat(a, 3, 3) && Bidiag.Is3(s) && Bidiag.Tracks(a, s)
    ensures Bidiag.Tracks(a, Reduced(s, c, rsqrt))
  {
    match c
    case Alpha2Small =>
      Bidiag.RowStepTracks(a, s, 1, 2, CosSinUnconventional(s.h[2][1], s.h[2][2], rsqrt));
    case Alpha3Small =>
      var r1 := CosSin(s.h[1][1], s.h[2][1], rsqrt);
      var s1 := Bidiag.Chase(ColumnRotated(s.h, 1, 2, r1), s.u, ColumnRotated(s.v, 1, 2, r1));
      Bidiag.ColumnStepTracks(a, s, 1, 2, r1);
      Bidiag.ColumnStepTracks(a, s1, 0, 2, CosSin(s1.h[0][0], s1.h[2][0], rsqrt));
    case Alpha1Small =>
      var r1 := CosSinUnconventional(s.h[1][0], s.h[1][1], rsqrt);
      var s1 := Bidiag.Chase(RowRotated(s.h, 0, 1, r1), ColumnRotated(s.u, 0, 1, r1), s.v);
      Bidiag.RowStepTracks(a, s, 0, 1, r1);
      Bidiag.RowStepTracks(a, s1, 0, 2, CosSinUnconventional(s1.h[2][0], s1.h[2][2], rsqrt));
    case _ =>
  }

  /** After `process<t>`, `U^T * A * V` is `B` with the rows of block `t`
      rotated by the `U` rotation of the 2x2 SVD and its columns by the `V`
      rotation. */
  lemma ProcessedPulled(a: Mat, s: Bidiag.Chase, sigma: seq<real>, t: nat, sqrt: real -> real)
    requires IsMat(a, 3, 3) && Bidiag.Is3(s) && |sigma| == 3 && t <= 1 && PositiveRoot(sqrt)
    requires Bidiag.Tracks(a, s)
    ensures var d := Decompose(Block(s.h, t), sqrt);
      SortNet.Pulled(a, Processed(s.h, SortNet.Frame(s.u, sigma, s.v), t, sqrt))
        == ColumnRotated(RowRotated(s.h, t, t + 1, d.u), t, t + 1, d.v)
  {
    var d := Decompose(Block(s.h, t), sqrt);
    var s1 := Bidiag.Chase(RowRotated(s.h, t, t + 1, d.u), ColumnRotated(s.u, t, t + 1, d.u), s.v);
    Bidiag.RowStepTracks(a, s, t, t + 1, d.u);
    Bidiag.ColumnStepTracks(a, s1, t, t + 1, d.v);
  }

  /** With exact roots, `process<t>` on a `B == U^T * A * V` that splits around
      block `t` leaves `U^T * A * V` diagonal with the new `sigma`, up to a pair
      of entries below `1e-20` in the block. */
  lemma ProcessedDiagonal(a: Mat, s: Bidiag.Chase, sigma: seq<real>, t: nat, sqrt: real -> real)
    requires IsMat(a, 3, 3) && Bidiag.Is3(s) && |sigma| == 3 && t <= 1 && ExactRoot(sqrt)
    requires Bidiag.Tracks(a, s) && Splits(s.h, t)
    ensures PositiveRoot(sqrt)
    ensures var f := Processed(s.h, SortNet.Frame(s.u, sigma, s.v), t, sqrt);
      SortNet.NearlyDiagonal(SortNet.Pulled(a, f), f.sigma, Tiny)
  {
    ExactIsPositive(sqrt);
    ProcessedPulled(a, s, sigma, t, sqrt);
    ProcessDiagonalizes(s.h, t, SortNet.Frame(s.u, sigma, s.v), sqrt);
    var d := Decompose(Block(s.h, t), sqrt);
    var W := ColumnRotated(RowRotated(s.h, t, t + 1, d.u), t, t + 1, d.v);
    SplitNearlyDiagonal(W, Processed(s.h, SortNet.Frame(s.u, sigma, s.v), t, sqrt).sigma, t);
  }

  /** A matrix split around block `t` whose block is symmetric with a small
      off-diagonal pair is diagonal up to that pair. */
  lemma SplitNearlyDiagonal(W: Mat, sigma: seq<real>, t: nat)
    requires IsMat(W, 3, 3) && |sigma| == 3 && t <= 1 && Splits(W, t)
    requires W[0][0] == sigma[0] && W[1][1] == sigma[1] && W[2][2] == sigma[2]
    requires W[t][t + 1] == W[t + 1][t] && Abs(W[t + 1][t]) < Tiny
    ensures SortNet.NearlyDiagonal(W, sigma, Tiny)
  {
    assert Abs(0.0) < Tiny;
  }

  /** With exact roots, the dispatch of a case whose tested entry is exactly 0
      leaves `U^T * A * V` with `sigma` on its diagonal and, off it, zeros and
      at most a pair of entries below `1e-20`. */
  lemma FinishedDiagonal(a: Mat, s: Bidiag.Chase, sigma: seq<real>, c: Deflation, rsqrt: real -> real, sqrt: real -> real)
    requires IsMat(a, 3, 3) && Bidiag.Is3(s) && |sigma| == 3 && ExactRoot(sqrt)
    requires Bidiag.Tracks(a, s) && Bidiag.IsUpperBidiag(s.h) && c != Unconverged && Tested(s.h, c) == 0.0
    ensures PositiveRoot(sqrt)
    ensures var f := Finished(s, sigma, c, rsqrt, sqrt);
      SortNet.NearlyDiagonal(SortNet.Pulled(a, f), f.sigma, Tiny)
  {
    ExactIsPositive(sqrt);
    var s1 := Reduced(s, c, rsqrt);
    var t := BlockOf(c);
    ReducedTracks(a, s, c, rsqrt);
    ReducedSplits(s, c, rsqrt);
    var f := Processed(s1.h, SortNet.Frame(s1.u, sigma, s1.v), t, sqrt);
    ProcessedDiagonal(a, s1, sigma, t, sqrt);
    if t == 0 {
      SortNet.Sorted0KeepsDiagonal(a, f, Tiny);
    } else {
      SortNet.Sorted1KeepsDiagonal(a, f, Tiny);
    }
  }

  /** The loop of `svd` stopped before the fuel ran out, on an entry that is
      exactly 0. */
  predicate DeflatesExactly(a: Mat, tol: real, fuel: nat, rsqrt: real -> real, sqrt: real -> real)
    requires IsMat(a, 3, 3) && tol >= 0.0 && PositiveRoot(sqrt)
  {
    var run := Loop(a, tol, fuel, rsqrt, sqrt);
    var c := CaseOf(run.s.h, LoopTol(a, tol, rsqrt, sqrt));
    c != Unconverged && Tested(run.s.h, c) == 0.0
  }

  /** The entry a case tests is within the tolerance. */
  lemma TestedWithin(h: Mat, tol: real)
    requires IsMat(h, 3, 3) && CaseOf(h, tol) != Unconverged
    ensures Abs(Tested(h, CaseOf(h, tol))) <= tol
  {
  }

  /** With tolerance 0, a loop that stops before the fuel runs out stops on an
      entry that is exactly 0. */
  lemma ZeroTolDeflatesExactly(a: Mat, fuel: nat, rsqrt: real -> real, sqrt: real -> real)
    requires IsMat(a, 3, 3) && PositiveRoot(sqrt) && Loop(a, 0.0, fuel, rsqrt, sqrt).count < fuel
    ensures DeflatesExactly(a, 0.0, fuel, rsqrt, sqrt)
  {
    var run := Loop(a, 0.0, fuel, rsqrt, sqrt);
    var tol1 := LoopTol(a, 0.0, rsqrt, sqrt);
    assert tol1 == 0.0;
    TestedWithin(run.s.h, tol1);
  }

  /** The exact-arithmetic content of "A = U S V'": with exact roots, when the
      loop stops on an entry that is exactly 0, the `U`, `sigma`, `V` that `svd`
      returns satisfy `U^T * A * V == diag(sigma)` up to off-diagonal entries
      below `1e-20`. */
  lemma DecomposedDiagonalizes(a: Mat, sigma: seq<real>, tol: real, fuel: nat, rsqrt: real -> real, sqrt: real -> real)
    requires IsMat(a, 3, 3) && |sigma| == 3 && tol >= 0.0 && ExactRoot(sqrt)
    ensures PositiveRoot(sqrt)
    ensures DeflatesExactly(a, tol, fuel, rsqrt, sqrt) ==>
      var f := Decomposed(a, sigma, tol, fuel, rsqrt, sqrt).f;
      SortNet.NearlyDiagonal(SortNet.Pulled(a, f), f.sigma, Tiny)
  {
    ExactIsPositive(sqrt);
    var run := Loop(a, tol, fuel, rsqrt, sqrt);
    var c := CaseOf(run.s.h, LoopTol(a, tol, rsqrt, sqrt));
    if c != Unconverged && Tested(run.s.h, c) == 0.0 {
      LoopTracks(a, tol, fuel, rsqrt, sqrt);
      Bidiag.MakeUpperBidiagShape(a, rsqrt);
      IterateKeepsBidiag(Bidiag.MadeUpperBidiag(a, rsqrt), LoopTol(a, tol, rsqrt, sqrt), 0, fuel, rsqrt, sqrt);
      FinishedDiagonal(a, run.s, sigma, c, rsqrt, sqrt);
    }
  }

  // ---------------------------------------------------------------------------
  // The 3x3 svd on arrays

  /** The `alpha_2` case: rows 1, 2 of `B` and columns 1, 2 of `U`. */
  method ReduceAlpha2(B: array2<real>, U: array2<real>, V: array2<real>, rsqrt: real -> real)
    requires Bidiag.Three(B, U, V)
    modifies B, U
    ensures Bidiag.State(B, U, V) == old(ReducedAlpha2(Bidiag.State(B, U, V), rsqrt))
  {
    var r1 := new GivensRotation(1, 2);
    r1.ComputeUnconventional(B[2, 1], B[2, 2], rsqrt);
    r1.RowRotation(B);
    r1.ColumnRotation(U);
  }

  /** The `alpha_3` case: columns 1, 2 and then 0, 2 of `B` and of `V`. */
  method ReduceAlpha3(B: array2<real>, U: array2<real>, V: array2<real>, rsqrt: real -> real)
    requires Bidiag.Three(B, U, V)
    modifies B, V
    ensures Bidiag.State(B, U, V) == old(ReducedAlpha3(Bidiag.State(B, U, V), rsqrt))
  {
    ghost var s := Bidiag.State(B, U, V);
    ghost var g1 := CosSin(s.h[1][1], s.h[2][1], rsqrt);
    ghost var h1 := ColumnRotated(s.h, 1, 2, g1);
    ghost var g2 := CosSin(h1[0][0], h1[2][0], rsqrt);
    var r1 := new GivensRotation(1, 2);
    r1.Compute(B[1, 1], B[2, 1], rsqrt);
    r1.ColumnRotation(B);
    r1.ColumnRotation(V);
    assert Cells(B) == h1 && Cells(V) == ColumnRotated(s.v, 1, 2, g1);
    var r2 := new GivensRotation(0, 2);
    r2.Compute(B[0, 0], B[2, 0], rsqrt);
    assert r2.Pair() == g2;
    r2.ColumnRotation(B);
    r2.ColumnRotation(V);
    assert Bidiag.State(B, U, V) == Bidiag.Chase(ColumnRotated(h1, 0, 2, g2), s.u, ColumnRotated(ColumnRotated(s.v, 1, 2, g1), 0, 2, g2));
  }

  /** The `alpha_1` case: rows 0, 1 and then 0, 2 of `B` and the same columns
      of `U`. */
  method ReduceAlpha1(B: array2<real>, U: array2<real>, V: array2<real>, rsqrt: real -> real)
    requires Bidiag.Three(B, U, V)
    modifies B, U
    ensures Bidiag.State(B, U, V) == old(ReducedAlpha1(Bidiag.State(B, U, V), rsqrt))
  {
    ghost var s := Bidiag.State(B, U, V);
    ghost var g1 := CosSinUnconventional(s.h[1][0], s.h[1][1], rsqrt);
    ghost var h1 := RowRotated(s.h, 0, 1, g1);
    ghost var g2 := CosSinUnconventional(h1[2][0], h1[2][2], rsqrt);
    var r1 := new GivensRotation(0, 1);
    r1.ComputeUnconventional(B[1, 0], B[1, 1], rsqrt);
    r1.RowRotation(B);
    r1.ColumnRotation(U);
    assert Cells(B) == h1 && Cells(U) == ColumnRotated(s.u, 0, 1, g1);
    var r2 := new GivensRotation(0, 2);
    r2.ComputeUnconventional(B[2, 0], B[2, 2], rsqrt);
    assert r2.Pair() == g2;
    r2.RowRotation(B);
    r2.ColumnRotation(U);
    assert Bidiag.State(B, U, V) == Bidiag.Chase(RowRotated(h1, 0, 2, g2), ColumnRotated(ColumnRotated(s.u, 0, 1, g1), 0, 2, g2), s.v);
  }

  /** `process<t>` followed by `sort0` or `sort1`, as every case ends. */
  method Finish(t: int, B: array2<real>, U: array2<real>, sigma: array<real>, V: array2<real>, sqrt: real -> real)
    requires t == 0 || t == 1
    requires Bidiag.Three(B, U, V) && sigma.Length == 3 && PositiveRoot(sqrt)
    modifies U, sigma, V
    ensures SortNet.State(U, sigma, V) == old(Deflated(Bidiag.State(B, U, V), sigma[..], t, sqrt))
  {
    Process(t, B, U, sigma, V, sqrt);
    if t == 0 {
      SortNet.Sort0(U, sigma, V);
    } else {
      SortNet.Sort1(U, sigma, V);
    }
  }

  /** A case where a diagonal entry vanished: the rotations that clear its row or
      column, then the 2x2 decomposition of the block that remains. */
  method ReduceAndFinish(c: Deflation, B: array2<real>, U: array2<real>, sigma: array<real>,
                         V: array2<real>, rsqrt: real -> real, sqrt: real -> real)
    requires c == Alpha2Small || c == Alpha3Small || c == Alpha1Small
    requires Bidiag.Three(B, U, V) && sigma.Length == 3 && PositiveRoot(sqrt)
    modifies B, U, sigma, V
    ensures SortNet.State(U, sigma, V)
      == old(Deflated(Reduced(Bidiag.State(B, U, V), c, rsqrt), sigma[..], BlockOf(c), sqrt))
  {
    ghost var s0, sigma0 := Bidiag.State(B, U, V), sigma[..];
    if c == Alpha2Small {
      ReduceAlpha2(B, U, V, rsqrt);
    } else if c == Alpha3Small {
      ReduceAlpha3(B, U, V, rsqrt);
    } else {
      ReduceAlpha1(B, U, V, rsqrt);
    }
    assert Bidiag.State(B, U, V) == Reduced(s0, c, rsqrt) && sigma[..] == sigma0;
    Finish(BlockOf(c), B, U, sigma, V, sqrt);
  }

  /** The dispatch after the loop, in the order of its tests. */
  method Deflate(B: array2<real>, U: array2<real>, sigma: array<real>, V: array2<real>, tol: real,
                 rsqrt: real -> real, sqrt: real -> real)
    requires Bidiag.Three(B, U, V) && sigma.Length == 3 && PositiveRoot(sqrt)
    modifies B, U, sigma, V
    ensures SortNet.State(U, sigma, V)
      == old(Finished(Bidiag.State(B, U, V), sigma[..], CaseOf(Cells(B), tol), rsqrt, sqrt))
  {
    ghost var s0, sigma0 := Bidiag.State(B, U, V), sigma[..];
    ghost var c := CaseOf(s0.h, tol);
    if Abs(B[2, 1]) <= tol {
      assert c == Beta2Small;
      Finish(0, B, U, sigma, V, sqrt);
    } else if Abs(B[1, 0]) <= tol {
      assert c == Beta1Small;
      Finish(1, B, U, sigma, V, sqrt);
    } else if Abs(B[1, 1]) <= tol {
      assert c == Alpha2Small;
      ReduceAndFinish(Alpha2Small, B, U, sigma, V, rsqrt, sqrt);
    } else if Abs(B[2, 2]) <= tol {
      assert c == Alpha3Small;
      ReduceAndFinish(Alpha3Small, B, U, sigma, V, rsqrt, sqrt);
    } else if Abs(B[0, 0]) <= tol {
      assert c == Alpha1Small;
      ReduceAndFinish(Alpha1Small, B, U, sigma, V, rsqrt, sqrt);
    } else {
      assert c == Unconverged;
    }
  }

  // ---------------------------------------------------------------------------
  // The 3x3 svd

  /** The rotation that starts a sweep, as the loop computes it from its locals:
      `mu = wilkinsonShift(alpha_2^2 + beta_1^2, gamma_2, alpha_3^2 + beta_2^2)`,
      then `r.compute(alpha_1^2 - mu, gamma_1)`. */
  method StartRotation(r: GivensRotation, alpha1: real, beta1: real, alpha2: real, alpha3: real, beta2: real,
                       rsqrt: real -> real, sqrt: real -> real)
    requires alpha2 != 0.0 && beta2 != 0.0 && PositiveRoot(sqrt)
    modifies r`c, r`s
    ensures r.Pair() == ShiftPair(alpha1, beta1, alpha2, alpha3, beta2, rsqrt, sqrt)
  {
    var gamma1, gamma2 := alpha1 * beta1, alpha2 * beta2;
    ProductNonZero(alpha2, beta2);
    var mu := WilkinsonShift(alpha2 * alpha2 + beta1 * beta1, gamma2, alpha3 * alpha3 + beta2 * beta2, sqrt);
    r.Compute(alpha1 * alpha1 - mu, gamma1, rsqrt);
  }

  /** One pass of the shift loop of `svd`, from the entries the loop has read
      into locals: the Wilkinson shift `mu`, the rotation of columns 0, 1 of `B`
      and `V` that starts the sweep, and `zeroChase`. */
  method ShiftSweep(r: GivensRotation, B: array2<real>, U: array2<real>, V: array2<real>,
                    alpha1: real, beta1: real, alpha2: real, alpha3: real, beta2: real,
                    rsqrt: real -> real, sqrt: real -> real)
    requires Bidiag.Three(B, U, V) && r.rowi == 0 && r.rowk == 1 && PositiveRoot(sqrt)
    requires alpha1 == B[0, 0] && beta1 == B[1, 0] && alpha2 == B[1, 1] && alpha3 == B[2, 2] && beta2 == B[2, 1]
    requires alpha2 != 0.0 && beta2 != 0.0
    modifies B, U, V, r`c, r`s
    ensures r.rowi == 0 && r.rowk == 1
    ensures Bidiag.State(B, U, V) == old(Sweep(Bidiag.State(B, U, V), rsqrt, sqrt))
  {
    ghost var s := Bidiag.State(B, U, V);
    StartRotation(r, alpha1, beta1, alpha2, alpha3, beta2, rsqrt, sqrt);
    assert s.h[0][0] == alpha1 && s.h[1][0] == beta1 && s.h[1][1] == alpha2 && s.h[2][2] == alpha3 && s.h[2][1] == beta2;
    r.ColumnRotation(B);
    r.ColumnRotation(V);
    assert Bidiag.State(B, U, V) == Bidiag.Chase(ColumnRotated(s.h, 0, 1, r.Pair()), s.u, ColumnRotated(s.v, 0, 1, r.Pair()));
    Bidiag.ZeroChase(B, U, V, rsqrt);
  }

  /** The start of `svd`: `B` a copy of `A`, `U` and `V` the identity, then
      `makeUpperBidiag`. */
  method Bidiagonalize(A: array2<real>, U: array2<real>, V: array2<real>, rsqrt: real -> real)
    returns (B: array2<real>)
    requires A.Length0 == A.Length1 == U.Length0 == U.Length1 == V.Length0 == V.Length1 == 3 && U != V
    modifies U, V
    ensures fresh(B) && Bidiag.Three(B, U, V)
    ensures Bidiag.State(B, U, V) == Bidiag.MadeUpperBidiag(old(Cells(A)), rsqrt)
  {
    B := Copy(A);
    SetIdentity(U);
    SetIdentity(V);
    Bidiag.MakeUpperBidiag(B, U, V, rsqrt);
  }

  /** The shift loop of `svd`, cut off after `fuel` sweeps: it ends where
      `Iterate` does, with the number of sweeps made. */
  method ShiftLoop(B: array2<real>, U: array2<real>, V: array2<real>, tol: real, fuel: nat,
                   rsqrt: real -> real, sqrt: real -> real) returns (count: nat)
    requires Bidiag.Three(B, U, V) && tol >= 0.0 && PositiveRoot(sqrt)
    modifies B, U, V
    ensures Run(Bidiag.State(B, U, V), count) == old(Iterate(Bidiag.State(B, U, V), tol, 0, fuel, rsqrt, sqrt))
  {
    ghost var s0 := Bidiag.State(B, U, V);
    count := 0;
    var r: GivensRotation := new GivensRotation(0, 1);
    var alpha1, beta1, alpha2, alpha3, beta2 := B[0, 0], B[1, 0], B[1, 1], B[2, 2], B[2, 1];
    while Abs(beta2) > tol && Abs(beta1) > tol && Abs(alpha1) > tol && Abs(alpha2) > tol && Abs(alpha3) > tol
          && count < fuel
      modifies B, U, V, r`c, r`s
      invariant Bidiag.Three(B, U, V) && r.rowi == 0 && r.rowk == 1
      invariant alpha1 == B[0, 0] && beta1 == B[1, 0] && alpha2 == B[1, 1] && alpha3 == B[2, 2] && beta2 == B[2, 1]
      invariant count <= fuel
      invariant Iterate(Bidiag.State(B, U, V), tol, count, fuel, rsqrt, sqrt) == Iterate(s0, tol, 0, fuel, rsqrt, sqrt)
      decreases fuel - count
    {
      ShiftSweep(r, B, U, V, alpha1, beta1, alpha2, alpha3, beta2, rsqrt, sqrt);
      alpha1, beta1, alpha2, alpha3, beta2 := B[0, 0], B[1, 0], B[1, 1], B[2, 2], B[2, 1];
      count := count + 1;
    }
  }

  /** The shift loop and the dispatch after it, for `B` already upper
      bidiagonal and `tol` already scaled. */
  method Converge(B: array2<real>, U: array2<real>, sigma: array<real>, V: array2<real>, tol: real, fuel: nat,
                  rsqrt: real -> real, sqrt: real -> real) returns (count: nat)
    requires Bidiag.Three(B, U, V) && sigma.Length == 3 && tol >= 0.0 && PositiveRoot(sqrt)
    modifies B, U, sigma, V
    ensures var run := old(Iterate(Bidiag.State(B, U, V), tol, 0, fuel, rsqrt, sqrt));
      SortNet.State(U, sigma, V) == Finished(run.s, old(sigma[..]), CaseOf(run.s.h, tol), rsqrt, sqrt)
      && count == run.count
  {
    ghost var run := Iterate(Bidiag.State(B, U, V), tol, 0, fuel, rsqrt, sqrt);
    ghost var sigma0 := sigma[..];
    count := ShiftLoop(B, U, V, tol, fuel, rsqrt, sqrt);
    assert Run(Bidiag.State(B, U, V), count) == run;
    assert sigma[..] == sigma0;
    Deflate(B, U, sigma, V, tol, rsqrt, sqrt);
  }

  /** `svd(A, U, sigma, V, tol)` for a 3x3 `A`, the shift loop cut off after
      `fuel` sweeps: `U`, `sigma`, `V` and the returned count are those of
      `Decomposed`. */
  method Svd3x3(A: array2<real>, U: array2<real>, sigma: array<real>, V: array2<real>, tol: real, fuel: nat,
                rsqrt: real -> real, sqrt: real -> real) returns (count: nat)
    requires A.Length0 == A.Length1 == U.Length0 == U.Length1 == V.Length0 == V.Length1 == 3
    requires U != V && sigma.Length == 3 && tol >= 0.0 && PositiveRoot(sqrt)
    modifies U, sigma, V
    ensures var o := old(Decomposed(Cells(A), sigma[..], tol, fuel, rsqrt, sqrt));
      SortNet.State(U, sigma, V) == o.f && count == o.count
    ensures ExactRoot(sqrt) && old(DeflatesExactly(Cells(A), tol, fuel, rsqrt, sqrt)) ==>
      SortNet.NearlyDiagonal(SortNet.Pulled(old(Cells(A)), SortNet.State(U, sigma, V)), sigma[..], Tiny)
  {
    ghost var sigma0 := sigma[..];
    ghost var a := Cells(A);
    if ExactRoot(sqrt) {
      DecomposedDiagonalizes(a, sigma0, tol, fuel, rsqrt, sqrt);
    }
    var B := Bidiagonalize(A, U, V, rsqrt);
    assert sigma[..] == sigma0;
    var alpha1, beta1, alpha2, alpha3, beta2 := B[0, 0], B[1, 0], B[1, 1], B[2, 2], B[2, 1];
    var tol1 := ScaledTol(alpha1, beta1, alpha2, alpha3, beta2, tol, sqrt);
    count := Converge(B, U, sigma, V, tol1, fuel, rsqrt, sqrt);
  }
}

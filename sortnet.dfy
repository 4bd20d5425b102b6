/** The sign and ordering network that ends the 3x3 SVD (`flipSign`, `sort0`,
    `sort1`). It works on triples (`sigma[i]`, column `i` of `U`, column `i` of
    `V`): it negates a value together with its `U` column, swaps two triples, or
    negates a `U` column together with its `V` column. None of these changes
    `U * diag(sigma) * V^T`. */
module SortNet {
  import opened Matrix
  import opened RealFacts

  /** `U`, `sigma` and `V`, columns first as everywhere in this model. */
  datatype Frame = Frame(u: Mat, sigma: seq<real>, v: Mat)

  predicate IsFrame(f: Frame) {
    IsMat(f.u, 3, 3) && |f.sigma| == 3 && IsMat(f.v, 3, 3)
  }

  /** `M[i] = -M[i]` on a matrix value. */
  function NegatedColumn(m: Mat, i: nat): (r: Mat)
    requires i < |m|
    ensures |r| == |m| && r[i] == Negated(m[i])
    ensures forall j :: 0 <= j < |m| && j != i ==> r[j] == m[j]
  {
    m[i := Negated(m[i])]
  }

  /** `std::swap(M[i], M[k])` on a matrix value. */
  function SwappedColumns(m: Mat, i: nat, k: nat): (r: Mat)
    requires i < |m| && k < |m|
    ensures |r| == |m| && r[i] == m[k] && r[k] == m[i]
    ensures forall j :: 0 <= j < |m| && j != i && j != k ==> r[j] == m[j]
  {
    m[i := m[k]][k := m[i]]
  }

  /** `flipSign(i)`: negates `sigma[i]` and column `i` of `U`. */
  function Flip(f: Frame, i: nat): (r: Frame)
    requires IsFrame(f) && i < 3
    ensures IsFrame(r)
  {
    Frame(NegatedColumn(f.u, i), f.sigma[i := -f.sigma[i]], f.v)
  }

  /** Swaps triples `i` and `k`: `sigma`, `U` column and `V` column move together. */
  function Swap(f: Frame, i: nat, k: nat): (r: Frame)
    requires IsFrame(f) && i < k < 3
    ensures IsFrame(r)
  {
    Frame(SwappedColumns(f.u, i, k), f.sigma[i := f.sigma[k]][k := f.sigma[i]], SwappedColumns(f.v, i, k))
  }

  /** `U[i] = -U[i]; V[i] = -V[i];`. */
  function NegatePair(f: Frame, i: nat): (r: Frame)
    requires IsFrame(f) && i < 3
    ensures IsFrame(r)
  {
    Frame(NegatedColumn(f.u, i), f.sigma, NegatedColumn(f.v, i))
  }

  /** `flipSign(i)` followed by `flipSign(k)`. */
  function FlipTwo(f: Frame, i: nat, k: nat): (r: Frame)
    requires IsFrame(f) && i < 3 && k < 3
    ensures IsFrame(r)
  {
    Flip(Flip(f, i), k)
  }

  /** `sort0`, after `process<0>` has filled `sigma[0]` and `sigma[1]`. */
  function Sorted0(f: Frame): (r: Frame)
    requires IsFrame(f)
    ensures IsFrame(r)
  {
    var s := f.sigma;
    if Abs(s[1]) >= Abs(s[2]) then
      if s[1] < 0.0 then FlipTwo(f, 1, 2) else f
    else
      var f1 := if s[2] < 0.0 then FlipTwo(f, 1, 2) else f;
      var f2 := Swap(f1, 1, 2);
      if f2.sigma[1] > f2.sigma[0] then Swap(f2, 0, 1) else NegatePair(f2, 2)
  }

  /** `sort1`, after `process<1>` has filled `sigma[1]` and `sigma[2]`. */
  function Sorted1(f: Frame): (r: Frame)
    requires IsFrame(f)
    ensures IsFrame(r)
  {
    var s := f.sigma;
    if Abs(s[0]) >= s[1] then
      if s[0] < 0.0 then FlipTwo(f, 0, 2) else f
    else
      var f1 := Swap(f, 0, 1);
      var f2 := if Abs(f1.sigma[1]) < Abs(f1.sigma[2]) then Swap(f1, 1, 2) else NegatePair(f1, 1);
      if f2.sigma[1] < 0.0 then FlipTwo(f2, 1, 2) else f2
  }

  // ---------------------------------------------------------------------------
  // What the network keeps

  /** Entry (column `q`, row `r`) of `U * diag(sigma) * V^T`. */
  function ReconAt(f: Frame, q: nat, r: nat): real
    requires IsFrame(f) && q < 3 && r < 3
  {
    Term(f, 0, q, r) + Term(f, 1, q, r) + Term(f, 2, q, r)
  }

  /** The share of triple `i` in entry (column `q`, row `r`) of the product. */
  function Term(f: Frame, i: nat, q: nat, r: nat): real
    requires IsFrame(f) && i < 3 && q < 3 && r < 3
  {
    f.sigma[i] * f.u[i][r] * f.v[i][q]
  }

  /** `U * diag(sigma) * V^T`. */
  function Recon(f: Frame): (m: Mat)
    requires IsFrame(f)
    ensures IsMat(m, 3, 3)
  {
    seq(3, q requires 0 <= q < 3 => seq(3, r requires 0 <= r < 3 => ReconAt(f, q, r)))
  }

  /** The magnitudes of the singular values. */
  function Magnitudes(f: Frame): multiset<real>
    requires IsFrame(f)
  {
    multiset{Abs(f.sigma[0]), Abs(f.sigma[1]), Abs(f.sigma[2])}
  }

  /** Equal products entry by entry give equal products. */
  lemma SameRecon(f: Frame, g: Frame)
    requires IsFrame(f) && IsFrame(g)
    requires forall q, r :: 0 <= q < 3 && 0 <= r < 3 ==> ReconAt(f, q, r) == ReconAt(g, q, r)
    ensures Recon(f) == Recon(g)
  {
    SameCells(Recon(f), Recon(g), 3, 3);
  }

  lemma NegatedTerm(a: real, b: real, c: real)
    ensures (-a) * (-b) * c == a * b * c && a * (-b) * (-c) == a * b * c
  {
  }

  /** `flipSign` keeps the product and the magnitudes, and its result is still a frame. */
  lemma FlipKeeps(f: Frame, i: nat)
    requires IsFrame(f) && i < 3
    ensures IsFrame(Flip(f, i))
    ensures Recon(Flip(f, i)) == Recon(f) && Magnitudes(Flip(f, i)) == Magnitudes(f)
  {
    var g := Flip(f, i);
    forall q, r | 0 <= q < 3 && 0 <= r < 3
      ensures ReconAt(g, q, r) == ReconAt(f, q, r)
    {
      NegatedTerm(f.sigma[i], f.u[i][r], f.v[i][q]);
    }
    SameRecon(g, f);
  }

  /** A swap keeps the product and the magnitudes. */
  lemma SwapKeeps(f: Frame, i: nat, k: nat)
    requires IsFrame(f) && i < k < 3
    ensures IsFrame(Swap(f, i, k))
    ensures Recon(Swap(f, i, k)) == Recon(f) && Magnitudes(Swap(f, i, k)) == Magnitudes(f)
  {
    SwapRecon(f, i, k);
    SwapMagnitudes(f, i, k);
  }

  lemma SwapRecon(f: Frame, i: nat, k: nat)
    requires IsFrame(f) && i < k < 3
    ensures IsFrame(Swap(f, i, k)) && Recon(Swap(f, i, k)) == Recon(f)
  {
    var g := Swap(f, i, k);
    var j := 3 - i - k;
    assert g.sigma[i] == f.sigma[k] && g.u[i] == f.u[k] && g.v[i] == f.v[k];
    assert g.sigma[k] == f.sigma[i] && g.u[k] == f.u[i] && g.v[k] == f.v[i];
    assert g.sigma[j] == f.sigma[j] && g.u[j] == f.u[j] && g.v[j] == f.v[j];
    forall q, r | 0 <= q < 3 && 0 <= r < 3
      ensures ReconAt(g, q, r) == ReconAt(f, q, r)
    {
      SwappedTerms(f, g, i, k, j, q, r);
    }
    SameRecon(g, f);
  }

  /** The terms of an entry of the product, after triples `i` and `k` changed
      places. */
  lemma SwappedTerms(f: Frame, g: Frame, i: nat, k: nat, j: nat, q: nat, r: nat)
    requires IsFrame(f) && IsFrame(g) && i < k < 3 && j == 3 - i - k && q < 3 && r < 3
    requires g.sigma[i] == f.sigma[k] && g.u[i] == f.u[k] && g.v[i] == f.v[k]
    requires g.sigma[k] == f.sigma[i] && g.u[k] == f.u[i] && g.v[k] == f.v[i]
    requires g.sigma[j] == f.sigma[j] && g.u[j] == f.u[j] && g.v[j] == f.v[j]
    ensures ReconAt(g, q, r) == ReconAt(f, q, r)
  {
    MovedTerm(f, g, k, i, q, r);
    MovedTerm(f, g, i, k, q, r);
    MovedTerm(f, g, j, j, q, r);
  }

  /** A triple that moved from place `m` of `f` to place `n` of `g` contributes
      the same term. */
  lemma MovedTerm(f: Frame, g: Frame, m: nat, n: nat, q: nat, r: nat)
    requires IsFrame(f) && IsFrame(g) && m < 3 && n < 3 && q < 3 && r < 3
    requires g.sigma[n] == f.sigma[m] && g.u[n] == f.u[m] && g.v[n] == f.v[m]
    ensures Term(g, n, q, r) == Term(f, m, q, r)
  {
  }

  lemma SwapMagnitudes(f: Frame, i: nat, k: nat)
    requires IsFrame(f) && i < k < 3
    ensures Magnitudes(Swap(f, i, k)) == Magnitudes(f)
  {
    var g := Swap(f, i, k);
    var a, b, c := Abs(f.sigma[0]), Abs(f.sigma[1]), Abs(f.sigma[2]);
    Permuted3(a, b, c);
    if i == 0 && k == 1 {
      assert g.sigma[0] == f.sigma[1] && g.sigma[1] == f.sigma[0] && g.sigma[2] == f.sigma[2];
      assert Magnitudes(g) == multiset{b, a, c};
    } else if i == 0 {
      assert g.sigma[0] == f.sigma[2] && g.sigma[1] == f.sigma[1] && g.sigma[2] == f.sigma[0];
      assert Magnitudes(g) == multiset{c, b, a};
    } else {
      assert g.sigma[0] == f.sigma[0] && g.sigma[1] == f.sigma[2] && g.sigma[2] == f.sigma[1];
      assert Magnitudes(g) == multiset{a, c, b};
    }
  }

  /** The three transpositions of a triple keep its multiset. */
  lemma Permuted3(a: real, b: real, c: real)
    ensures multiset{b, a, c} == multiset{a, b, c}
    ensures multiset{c, b, a} == multiset{a, b, c}
    ensures multiset{a, c, b} == multiset{a, b, c}
  {
  }

  /** Negating a `U` column with its `V` column keeps the product and the values. */
  lemma NegatePairKeeps(f: Frame, i: nat)
    requires IsFrame(f) && i < 3
    ensures IsFrame(NegatePair(f, i))
    ensures Recon(NegatePair(f, i)) == Recon(f) && NegatePair(f, i).sigma == f.sigma
  {
    var g := NegatePair(f, i);
    forall q, r | 0 <= q < 3 && 0 <= r < 3
      ensures ReconAt(g, q, r) == ReconAt(f, q, r)
    {
      NegatedTerm(f.sigma[i], f.u[i][r], f.v[i][q]);
    }
    SameRecon(g, f);
  }

  /** Two sign flips keep the product and the magnitudes. */
  lemma FlipTwoKeeps(f: Frame, i: nat, k: nat)
    requires IsFrame(f) && i < 3 && k < 3
    ensures IsFrame(FlipTwo(f, i, k))
    ensures Recon(FlipTwo(f, i, k)) == Recon(f) && Magnitudes(FlipTwo(f, i, k)) == Magnitudes(f)
  {
    FlipKeeps(f, i);
    FlipKeeps(Flip(f, i), k);
  }

  /** `sort0` keeps `U * diag(sigma) * V^T` and the multiset of magnitudes. */
  lemma Sorted0Keeps(f: Frame)
    requires IsFrame(f)
    ensures IsFrame(Sorted0(f))
    ensures Recon(Sorted0(f)) == Recon(f) && Magnitudes(Sorted0(f)) == Magnitudes(f)
  {
    var s := f.sigma;
    if Abs(s[1]) >= Abs(s[2]) {
      FlipTwoKeeps(f, 1, 2);
    } else {
      var f1 := if s[2] < 0.0 then FlipTwo(f, 1, 2) else f;
      FlipTwoKeeps(f, 1, 2);
      SwapThenLast0(f1);
    }
  }

  /** The part of `sort0` after the sign fix. */
  lemma SwapThenLast0(f1: Frame)
    requires IsFrame(f1)
    ensures var f2 := Swap(f1, 1, 2);
      var f3 := if f2.sigma[1] > f2.sigma[0] then Swap(f2, 0, 1) else NegatePair(f2, 2);
      IsFrame(f3) && Recon(f3) == Recon(f1) && Magnitudes(f3) == Magnitudes(f1)
  {
    SwapKeeps(f1, 1, 2);
    var f2 := Swap(f1, 1, 2);
    if f2.sigma[1] > f2.sigma[0] {
      SwapKeeps(f2, 0, 1);
    } else {
      NegatePairKeeps(f2, 2);
    }
  }

  /** `sort1` keeps `U * diag(sigma) * V^T` and the multiset of magnitudes. */
  lemma Sorted1Keeps(f: Frame)
    requires IsFrame(f)
    ensures IsFrame(Sorted1(f))
    ensures Recon(Sorted1(f)) == Recon(f) && Magnitudes(Sorted1(f)) == Magnitudes(f)
  {
    var s := f.sigma;
    if Abs(s[0]) >= s[1] {
      FlipTwoKeeps(f, 0, 2);
    } else {
      SwapKeeps(f, 0, 1);
      LastTwo1(Swap(f, 0, 1));
    }
  }

  /** The part of `sort1` after the first swap. */
  lemma LastTwo1(f1: Frame)
    requires IsFrame(f1)
    ensures var f2 := if Abs(f1.sigma[1]) < Abs(f1.sigma[2]) then Swap(f1, 1, 2) else NegatePair(f1, 1);
      var f3 := if f2.sigma[1] < 0.0 then FlipTwo(f2, 1, 2) else f2;
      IsFrame(f3) && Recon(f3) == Recon(f1) && Magnitudes(f3) == Magnitudes(f1)
  {
    var f2 := if Abs(f1.sigma[1]) < Abs(f1.sigma[2]) then Swap(f1, 1, 2) else NegatePair(f1, 1);
    if Abs(f1.sigma[1]) < Abs(f1.sigma[2]) {
      SwapKeeps(f1, 1, 2);
    } else {
      NegatePairKeeps(f1, 1);
    }
    FlipTwoKeeps(f2, 1, 2);
  }

  // ---------------------------------------------------------------------------
  // What the network keeps of U^T * A * V

  /** `U^T * a * V` for the frame. */
  function Pulled(a: Mat, f: Frame): (w: Mat)
    requires IsMat(a, 3, 3) && IsFrame(f)
    ensures IsMat(w, 3, 3)
  {
    Transformed(a, f.u, f.v, 3)
  }

  /** `w` has `sigma` on its diagonal and entries of magnitude below `eps` off it. */
  predicate NearlyDiagonal(w: Mat, sigma: seq<real>, eps: real)
    requires IsMat(w, 3, 3) && |sigma| == 3
  {
    && (forall j :: 0 <= j < 3 ==> w[j][j] == sigma[j])
    && (forall j, i :: 0 <= j < 3 && 0 <= i < 3 && j != i ==> Abs(w[j][i]) < eps)
  }

  /** Where index `j` goes when `i` and `k` change places. */
  function Swapped(j: nat, i: nat, k: nat): nat {
    if j == i then k else if j == k then i else j
  }

  /** `flipSign(i)` negates row `i` of `U^T * a * V`. */
  lemma FlipPulled(a: Mat, f: Frame, i: nat, q: nat, r: nat)
    requires IsMat(a, 3, 3) && IsFrame(f) && i < 3 && q < 3 && r < 3
    ensures Pulled(a, Flip(f, i))[q][r] == if r == i then -Pulled(a, f)[q][r] else Pulled(a, f)[q][r]
  {
    var g := Flip(f, i);
    TransformedAt(a, g.u, g.v, 3, q, r);
    TransformedAt(a, f.u, f.v, 3, q, r);
    if r == i {
      DotNegated(f.u[i], Apply(a, f.v[q], 3));
    }
  }

  /** A swap of triples `i`, `k` permutes the rows and the columns of
      `U^T * a * V` alike. */
  lemma SwapPulled(a: Mat, f: Frame, i: nat, k: nat, q: nat, r: nat)
    requires IsMat(a, 3, 3) && IsFrame(f) && i < k < 3 && q < 3 && r < 3
    ensures Pulled(a, Swap(f, i, k))[q][r] == Pulled(a, f)[Swapped(q, i, k)][Swapped(r, i, k)]
  {
    var g := Swap(f, i, k);
    assert g.u[r] == f.u[Swapped(r, i, k)] && g.v[q] == f.v[Swapped(q, i, k)];
    TransformedAt(a, g.u, g.v, 3, q, r);
    TransformedAt(a, f.u, f.v, 3, Swapped(q, i, k), Swapped(r, i, k));
  }

  /** Negating column `i` of both `U` and `V` negates row `i` and column `i` of
      `U^T * a * V`, so the diagonal entry keeps its sign. */
  lemma NegatePairPulled(a: Mat, f: Frame, i: nat, q: nat, r: nat)
    requires IsMat(a, 3, 3) && IsFrame(f) && i < 3 && q < 3 && r < 3
    ensures Pulled(a, NegatePair(f, i))[q][r]
         == if (q == i) != (r == i) then -Pulled(a, f)[q][r] else Pulled(a, f)[q][r]
  {
    var g := NegatePair(f, i);
    TransformedAt(a, g.u, g.v, 3, q, r);
    TransformedAt(a, f.u, f.v, 3, q, r);
    var y := Apply(a, f.v[q], 3);
    if q == i {
      ApplyNegated(a, f.v[i], 3);
      DotNegated(y, f.u[r]);
      DotSymmetric(f.u[r], y);
      if r == i {
        DotNegated(f.u[i], Negated(y));
      }
    } else if r == i {
      DotNegated(f.u[i], y);
    }
  }

  lemma FlipKeepsDiagonal(a: Mat, f: Frame, i: nat, eps: real)
    requires IsMat(a, 3, 3) && IsFrame(f) && i < 3 && NearlyDiagonal(Pulled(a, f), f.sigma, eps)
    ensures NearlyDiagonal(Pulled(a, Flip(f, i)), Flip(f, i).sigma, eps)
  {
    forall q, r | 0 <= q < 3 && 0 <= r < 3 {
      FlipPulled(a, f, i, q, r);
    }
  }

  lemma SwapKeepsDiagonal(a: Mat, f: Frame, i: nat, k: nat, eps: real)
    requires IsMat(a, 3, 3) && IsFrame(f) && i < k < 3 && NearlyDiagonal(Pulled(a, f), f.sigma, eps)
    ensures NearlyDiagonal(Pulled(a, Swap(f, i, k)), Swap(f, i, k).sigma, eps)
  {
    var g := Swap(f, i, k);
    var w, w2 := Pulled(a, f), Pulled(a, g);
    forall j | 0 <= j < 3
      ensures w2[j][j] == g.sigma[j]
    {
      SwapPulled(a, f, i, k, j, j);
      assert g.sigma[j] == f.sigma[Swapped(j, i, k)];
    }
    forall q, r | 0 <= q < 3 && 0 <= r < 3 && q != r
      ensures Abs(w2[q][r]) < eps
    {
      SwapPulled(a, f, i, k, q, r);
      assert Swapped(q, i, k) != Swapped(r, i, k);
    }
  }

  lemma NegatePairKeepsDiagonal(a: Mat, f: Frame, i: nat, eps: real)
    requires IsMat(a, 3, 3) && IsFrame(f) && i < 3 && NearlyDiagonal(Pulled(a, f), f.sigma, eps)
    ensures NearlyDiagonal(Pulled(a, NegatePair(f, i)), NegatePair(f, i).sigma, eps)
  {
    forall q, r | 0 <= q < 3 && 0 <= r < 3 {
      NegatePairPulled(a, f, i, q, r);
    }
  }

  lemma FlipTwoKeepsDiagonal(a: Mat, f: Frame, i: nat, k: nat, eps: real)
    requires IsMat(a, 3, 3) && IsFrame(f) && i < 3 && k < 3 && NearlyDiagonal(Pulled(a, f), f.sigma, eps)
    ensures NearlyDiagonal(Pulled(a, FlipTwo(f, i, k)), FlipTwo(f, i, k).sigma, eps)
  {
    FlipKeepsDiagonal(a, f, i, eps);
    FlipKeepsDiagonal(a, Flip(f, i), k, eps);
  }

  /** `sort0` keeps `U^T * a * V` diagonal with `sigma` on the diagonal, up to
      off-diagonal entries below `eps`. */
  lemma Sorted0KeepsDiagonal(a: Mat, f: Frame, eps: real)
    requires IsMat(a, 3, 3) && IsFrame(f) && NearlyDiagonal(Pulled(a, f), f.sigma, eps)
    ensures NearlyDiagonal(Pulled(a, Sorted0(f)), Sorted0(f).sigma, eps)
  {
    var s := f.sigma;
    FlipTwoKeepsDiagonal(a, f, 1, 2, eps);
    if Abs(s[1]) < Abs(s[2]) {
      var f1 := if s[2] < 0.0 then FlipTwo(f, 1, 2) else f;
      SwapThenLast0Diagonal(a, f1, eps);
    }
  }

  /** The part of `sort0` after the sign fix. */
  lemma SwapThenLast0Diagonal(a: Mat, f1: Frame, eps: real)
    requires IsMat(a, 3, 3) && IsFrame(f1) && NearlyDiagonal(Pulled(a, f1), f1.sigma, eps)
    ensures var f2 := Swap(f1, 1, 2);
      var f3 := if f2.sigma[1] > f2.sigma[0] then Swap(f2, 0, 1) else NegatePair(f2, 2);
      NearlyDiagonal(Pulled(a, f3), f3.sigma, eps)
  {
    SwapKeepsDiagonal(a, f1, 1, 2, eps);
    var f2 := Swap(f1, 1, 2);
    if f2.sigma[1] > f2.sigma[0] {
      SwapKeepsDiagonal(a, f2, 0, 1, eps);
    } else {
      NegatePairKeepsDiagonal(a, f2, 2, eps);
    }
  }

  /** `sort1` keeps `U^T * a * V` diagonal with `sigma` on the diagonal, up to
      off-diagonal entries below `eps`. */
  lemma Sorted1KeepsDiagonal(a: Mat, f: Frame, eps: real)
    requires IsMat(a, 3, 3) && IsFrame(f) && NearlyDiagonal(Pulled(a, f), f.sigma, eps)
    ensures NearlyDiagonal(Pulled(a, Sorted1(f)), Sorted1(f).sigma, eps)
  {
    var s := f.sigma;
    if Abs(s[0]) >= s[1] {
      FlipTwoKeepsDiagonal(a, f, 0, 2, eps);
    } else {
      SwapKeepsDiagonal(a, f, 0, 1, eps);
      LastTwo1Diagonal(a, Swap(f, 0, 1), eps);
    }
  }

  /** The part of `sort1` after the first swap. */
  lemma LastTwo1Diagonal(a: Mat, f1: Frame, eps: real)
    requires IsMat(a, 3, 3) && IsFrame(f1) && NearlyDiagonal(Pulled(a, f1), f1.sigma, eps)
    ensures var f2 := if Abs(f1.sigma[1]) < Abs(f1.sigma[2]) then Swap(f1, 1, 2) else NegatePair(f1, 1);
      var f3 := if f2.sigma[1] < 0.0 then FlipTwo(f2, 1, 2) else f2;
      NearlyDiagonal(Pulled(a, f3), f3.sigma, eps)
  {
    var f2 := if Abs(f1.sigma[1]) < Abs(f1.sigma[2]) then Swap(f1, 1, 2) else NegatePair(f1, 1);
    if Abs(f1.sigma[1]) < Abs(f1.sigma[2]) {
      SwapKeepsDiagonal(a, f1, 1, 2, eps);
    } else {
      NegatePairKeepsDiagonal(a, f1, 1, eps);
    }
    FlipTwoKeepsDiagonal(a, f2, 1, 2, eps);
  }

  /** Singular values in decreasing magnitude, the first two not negative. */
  predicate Ordered(s: seq<real>)
    requires |s| == 3
  {
    Abs(s[0]) >= Abs(s[1]) >= Abs(s[2]) && s[0] >= 0.0 && s[1] >= 0.0
  }

  /** `sort0`, given `sigma[0] >= |sigma[1]|` as the 2x2 SVD of the upper block
      leaves it, orders the values. */
  lemma Sorted0Orders(f: Frame)
    requires IsFrame(f) && f.sigma[0] >= Abs(f.sigma[1])
    ensures Ordered(Sorted0(f).sigma)
  {
  }

  /** `sort1`, given `sigma[1] >= |sigma[2]|` as the 2x2 SVD of the lower block
      leaves it, orders the values. */
  lemma Sorted1Orders(f: Frame)
    requires IsFrame(f) && f.sigma[1] >= Abs(f.sigma[2])
    ensures Ordered(Sorted1(f).sigma)
  {
  }

  // ---------------------------------------------------------------------------
  // The network on arrays

  /** The frame held by three arrays. */
  ghost function State(U: array2<real>, sigma: array<real>, V: array2<real>): Frame
    reads U, sigma, V
  {
    Frame(Cells(U), sigma[..], Cells(V))
  }

  predicate Arrays3(U: array2<real>, sigma: array<real>, V: array2<real>) {
    U.Length0 == U.Length1 == V.Length0 == V.Length1 == sigma.Length == 3 && U != V
  }

  /** `M[i] = -M[i]` on a 3x3 matrix. */
  method NegateColumn(M: array2<real>, i: int)
    requires M.Length0 == M.Length1 == 3 && 0 <= i < 3
    modifies M
    ensures Cells(M) == NegatedColumn(old(Cells(M)), i)
  {
    M[i, 0], M[i, 1], M[i, 2] := -M[i, 0], -M[i, 1], -M[i, 2];
    SameCells(Cells(M), NegatedColumn(old(Cells(M)), i), 3, 3);
  }

  /** `std::swap(M[i], M[k])` on a 3x3 matrix. */
  method SwapColumns(M: array2<real>, i: int, k: int)
    requires M.Length0 == M.Length1 == 3 && 0 <= i < k < 3
    modifies M
    ensures Cells(M) == SwappedColumns(old(Cells(M)), i, k)
  {
    ghost var m := Cells(M);
    for r := 0 to 3
      invariant forall j, q :: 0 <= j < 3 && 0 <= q < 3 ==>
        M[j, q] == if q < r then SwappedColumns(m, i, k)[j][q] else m[j][q]
    {
      M[i, r], M[k, r] := M[k, r], M[i, r];
    }
    SameCells(Cells(M), SwappedColumns(m, i, k), 3, 3);
  }

  /** `flipSign(i, U, sigma)`. */
  method FlipSign(i: int, U: array2<real>, sigma: array<real>)
    requires U.Length0 == U.Length1 == sigma.Length == 3 && 0 <= i < 3
    modifies U, sigma
    ensures Cells(U) == NegatedColumn(old(Cells(U)), i)
    ensures sigma[..] == old(sigma[..])[i := -old(sigma[i])]
  {
    sigma[i] := -sigma[i];
    NegateColumn(U, i);
  }

  /** Swaps triples `i` and `k` of the arrays. */
  method SwapTriples(U: array2<real>, sigma: array<real>, V: array2<real>, i: int, k: int)
    requires Arrays3(U, sigma, V) && 0 <= i < k < 3
    modifies U, sigma, V
    ensures State(U, sigma, V) == Swap(old(State(U, sigma, V)), i, k)
  {
    sigma[i], sigma[k] := sigma[k], sigma[i];
    SwapColumns(U, i, k);
    SwapColumns(V, i, k);
  }

  /** `flipSign(i, ...)` then `flipSign(k, ...)`. */
  method FlipSigns(U: array2<real>, sigma: array<real>, V: array2<real>, i: int, k: int)
    requires Arrays3(U, sigma, V) && 0 <= i < 3 && 0 <= k < 3
    modifies U, sigma
    ensures State(U, sigma, V) == FlipTwo(old(State(U, sigma, V)), i, k)
  {
    FlipSign(i, U, sigma);
    FlipSign(k, U, sigma);
  }

  /** `U[i] = -U[i]; V[i] = -V[i];` */
  method NegatePairs(U: array2<real>, sigma: array<real>, V: array2<real>, i: int)
    requires Arrays3(U, sigma, V) && 0 <= i < 3
    modifies U, V
    ensures State(U, sigma, V) == NegatePair(old(State(U, sigma, V)), i)
  {
    NegateColumn(U, i);
    NegateColumn(V, i);
  }

  /** `sort0(U, sigma, V)`. */
  method Sort0(U: array2<real>, sigma: array<real>, V: array2<real>)
    requires Arrays3(U, sigma, V)
    modifies U, sigma, V
    ensures State(U, sigma, V) == Sorted0(old(State(U, sigma, V)))
  {
    if Abs(sigma[1]) >= Abs(sigma[2]) {
      if sigma[1] < 0.0 {
        FlipSigns(U, sigma, V, 1, 2);
      }
      return;
    }
    if sigma[2] < 0.0 {
      FlipSigns(U, sigma, V, 1, 2);
    }
    SwapTriples(U, sigma, V, 1, 2);
    if sigma[1] > sigma[0] {
      SwapTriples(U, sigma, V, 0, 1);
    } else {
      NegatePairs(U, sigma, V, 2);
    }
  }

  /** `sort1(U, sigma, V)`. */
  method Sort1(U: array2<real>, sigma: array<real>, V: array2<real>)
    requires Arrays3(U, sigma, V)
    modifies U, sigma, V
    ensures State(U, sigma, V) == Sorted1(old(State(U, sigma, V)))
  {
    if Abs(sigma[0]) >= sigma[1] {
      if sigma[0] < 0.0 {
        FlipSigns(U, sigma, V, 0, 2);
      }
      return;
    }
    SwapTriples(U, sigma, V, 0, 1);
    if Abs(sigma[1]) < Abs(sigma[2]) {
      SwapTriples(U, sigma, V, 1, 2);
    } else {
      NegatePairs(U, sigma, V, 1);
    }
    if sigma[1] < 0.0 {
      FlipSigns(U, sigma, V, 1, 2);
    }
  }
}

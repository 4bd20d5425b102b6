# Givens-rotation SVD/QR kernel, config reader and path helpers

A Dafny model of three parts of the library's `LibCommon`:

- **`LinearAlgebra/ImplicitQRSVD.cpp`**: the Givens rotation class and the kernels built from it.
  - The rotation class: `compute`, `computeUnconventional`, row and column rotation, `fill`, transpose, `*=` and `*`.
  - `zeroChase` and `makeUpperBidiag`.
  - The 2x2 polar decomposition and the 2x2 SVD with its sort.
  - `wilkinsonShift`, `process<t>`, `flipSign`, `sort0` and `sort1`.
  - The 3x3 SVD: the implicitly shifted QR loop and the deflation dispatch after it.
  - The Givens QR family: `inplaceGivensR`, `simultaneousGivensQR`, the two `inplaceGivensQR` and the two `GivensQR`.
- **`Utils/AppConfigReader.h`**: reads `name value` lines with `//` comments into a map and answers lookups.
- **`Utils/FileHelpers.h`**: the extension and the file name of a path, and the numbered data-file paths `top/sub/name.0042.ext`.

## Conventions

- **Numbers.** The element type `T` is `real`. Square roots are parameters of the operations that use them:
  - `approx_rsqrt` is `rsqrt`;
  - `std::sqrt` and `glm::length` are `sqrt`.

  Most theorems hold for any such function. The few that need exact roots say so: they require `ExactRoot(sqrt)`.
- **Matrices.** They follow glm's column-major layout.
  - `A[j, i]` of an `array2<real>` and `m[j][i]` of a `Mat = seq<seq<real>>` are column `j`, row `i`.
  - `A.Length0` is the number of columns and `A.Length1` the number of rows.
  - `Cells(A)` is the value an array holds.
- **Operations.** Each operation that changes matrices in place is a method on arrays. Its `ensures` ties the new contents to a function on values, and the lemmas state properties of those functions. For the 3x3 `svd` the bidiagonal shape and `B == U^T A V` hold for any root routines. The order of the values is proved with an exact `sqrt`. `U^T A V == diag(sigma)` (up to entries below `1e-20`) is proved only with exact roots and when the loop stops on an entry that is exactly 0 (see Left out).
- **Rotation layout.** `rowRotation` left-multiplies by the transpose of the matrix `fill` produces, and `columnRotation` right-multiplies by that matrix (`Givens.RowRotatedIsProduct`, `Givens.ColumnRotatedIsProduct`).
- **Config file.** The file arrives as its sequence of lines, which is what `getline` delivers. `None` stands for a file that cannot be opened.
- **Config parsing.** The model follows the code where its behaviour may surprise:
  - the comment cut uses `find_first_of("//")`, which cuts at the first `'/'` even when that slash is not part of the `//`;
  - a `>>` that finds no word leaves its target string holding the previous line's word, because `paramName` and `paramValue` live outside the loop;
  - a line whose text before the comment is blanks only still reaches the tokenizer after the cut, and stores the previous pair again. So does a blank line holding a `'\v'` or `'\f'`, which the trailing trim keeps. A line of spaces, tabs and line ends alone is trimmed to nothing and skipped.
- **Path overloads.** The three `getFullFilePath` overloads differ only in how each string is passed, so one definition models all three.

## Model

| member | source | states |
|---|---|---|
| Givens.CosSin | LibCommon/LinearAlgebra/ImplicitQRSVD.cpp:58-68 | the pair of `compute(a, b)` zeroes the second component, `s*a + c*b == 0`, and is `(1, 0)` when `d = a*a + b*b == 0`; otherwise the surviving component `c*a - s*b` is `d*rsqrt(d)` and `c*c + s*s` is `d*rsqrt(d)^2`, so an exact `rsqrt` gives a unit pair that maps `(a, b)` to `(sqrt(d), 0)` |
| Givens.CosSinUnconventional | LibCommon/LinearAlgebra/ImplicitQRSVD.cpp:75-86 | the pair of `computeUnconventional(a, b)` zeroes the first component, `c*a - s*b == 0`, and is `(0, 1)` when `d = a*a + b*b == 0`; otherwise the surviving component `s*a + c*b` is `d*rsqrt(d)` and `c*c + s*s` is `d*rsqrt(d)^2` |
| Givens.ProductTransposed | LibCommon/LinearAlgebra/ImplicitQRSVD.cpp:51 | a rotation composed with its transpose leaves `(c*c + s*s, 0)`, the identity for a unit pair |
| Givens.ProductNorm | LibCommon/LinearAlgebra/ImplicitQRSVD.cpp:137-142 | the squared norm of a product of pairs is the product of the squared norms, so `*=` of unit pairs is a unit pair |
| Givens.RowRotated | LibCommon/LinearAlgebra/ImplicitQRSVD.cpp:108-115 | row rotation touches only rows `i` and `k` of each column, giving them `c*x_i - s*x_k` and `s*x_i + c*x_k` |
| Givens.ColumnRotated | LibCommon/LinearAlgebra/ImplicitQRSVD.cpp:125-132 | column rotation touches only columns `i` and `k`, giving them `c*col_i - s*col_k` and `s*col_i + c*col_k` |
| Givens.RowRotatedIsProduct | LibCommon/LinearAlgebra/ImplicitQRSVD.cpp:100-115 | `rowRotation(A)` equals `fill`'s matrix transposed times `A` |
| Givens.ColumnRotatedIsProduct | LibCommon/LinearAlgebra/ImplicitQRSVD.cpp:117-132 | `columnRotation(A)` equals `A` times `fill`'s matrix |
| Givens.ColumnRotatedMul | LibCommon/LinearAlgebra/ImplicitQRSVD.cpp:125-132 | rotating the columns of `Y` in a product `X*Y` is rotating the columns of the product |
| Givens.TransposeColumnRotated | LibCommon/LinearAlgebra/ImplicitQRSVD.cpp:108-132 | the transpose of a matrix with rotated columns is the transpose with the same rows rotated |
| Givens.ColumnRotatedTwice | LibCommon/LinearAlgebra/ImplicitQRSVD.cpp:134-142 | two column rotations on the same pair of indices equal one rotation by their `*=` product |
| Givens.RowRotatedTwice | LibCommon/LinearAlgebra/ImplicitQRSVD.cpp:134-142 | two row rotations on the same pair equal one rotation by their product |
| Givens.GivensRotation.constructor | LibCommon/LinearAlgebra/ImplicitQRSVD.cpp:48 | `GivensRotation(rowi, rowk)` stores the indices and the identity pair `(1, 0)` |
| Givens.GivensRotation.FromPair | LibCommon/LinearAlgebra/ImplicitQRSVD.cpp:49 | `GivensRotation(a, b, rowi, rowk)` stores the indices and the pair of `compute(a, b)` |
| Givens.GivensRotation.TransposeInPlace | LibCommon/LinearAlgebra/ImplicitQRSVD.cpp:51 | the pair becomes its transpose `(c, -s)` |
| Givens.GivensRotation.Compute | LibCommon/LinearAlgebra/ImplicitQRSVD.cpp:58-68 | the pair becomes `CosSin(a, b)` and the indices are unchanged |
| Givens.GivensRotation.ComputeUnconventional | LibCommon/LinearAlgebra/ImplicitQRSVD.cpp:75-86 | the pair becomes `CosSinUnconventional(a, b)` and the indices are unchanged |
| Givens.GivensRotation.Fill | LibCommon/LinearAlgebra/ImplicitQRSVD.cpp:90-98 | `R` becomes the identity with `c` at `[i][i]` and `[k][k]`, `s` at `[k][i]` and `-s` at `[i][k]` |
| Givens.GivensRotation.RowRotation | LibCommon/LinearAlgebra/ImplicitQRSVD.cpp:107-115 | the loop over the columns leaves `A` as `RowRotated` of its old contents |
| Givens.GivensRotation.ColumnRotation | LibCommon/LinearAlgebra/ImplicitQRSVD.cpp:124-132 | the loop over the rows leaves `A` as `ColumnRotated` of its old contents |
| Givens.GivensRotation.MulAssign | LibCommon/LinearAlgebra/ImplicitQRSVD.cpp:137-142 | `*=` makes the pair the complex-style product of the two old pairs, read before either is written |
| Givens.GivensRotation.Times | LibCommon/LinearAlgebra/ImplicitQRSVD.cpp:147-151 | `*` returns a fresh rotation on the same indices holding the product; this one is unchanged |
| Bidiag.FirstTwoZeros | LibCommon/LinearAlgebra/ImplicitQRSVD.cpp:174-194 | the first two rotations of `zeroChase` zero `H[0][1]` and `H[2][0]` (the second one computed from `H` before the first is applied, on both branches) and keep `H[0][2]` |
| Bidiag.BulgeZeroed | LibCommon/LinearAlgebra/ImplicitQRSVD.cpp:180-188 | the shortcut pair computed from the unrotated `H` zeroes the entry the rotated `H` would have needed |
| Bidiag.LastRotationShape | LibCommon/LinearAlgebra/ImplicitQRSVD.cpp:202-203 | the third rotation completes the upper bidiagonal shape |
| Bidiag.ZeroChaseBidiag | LibCommon/LinearAlgebra/ImplicitQRSVD.cpp:155-210 | for the documented input shape (`H[0][2] == 0`) `zeroChase` leaves `H` upper bidiagonal |
| Bidiag.FirstRotationZero | LibCommon/LinearAlgebra/ImplicitQRSVD.cpp:235-236 | the first rotation of `makeUpperBidiag` zeroes `H[0][2]` |
| Bidiag.MakeUpperBidiagShape | LibCommon/LinearAlgebra/ImplicitQRSVD.cpp:212-241 | `makeUpperBidiag` leaves every 3x3 `H` upper bidiagonal |
| Bidiag.SecondRotation | LibCommon/LinearAlgebra/ImplicitQRSVD.cpp:183-188 | the second rotation is built on rows 1, 2 from the branch on `H[0][1] != 0` |
| Bidiag.RowStepTracks | LibCommon/LinearAlgebra/ImplicitQRSVD.cpp:190 | rotating rows `i`, `k` of `H` and columns `i`, `k` of `U` by one pair keeps `H == U^T A V` |
| Bidiag.ColumnStepTracks | LibCommon/LinearAlgebra/ImplicitQRSVD.cpp:193-194 | rotating columns `i`, `k` of `H` and of `V` by one pair keeps `H == U^T A V` |
| Bidiag.StartTracks | LibCommon/LinearAlgebra/ImplicitQRSVD.cpp:225-226 | with `U`, `V` the identity, `H == U^T H V` |
| Bidiag.ZeroChaseTracks | LibCommon/LinearAlgebra/ImplicitQRSVD.cpp:167-210 | `zeroChase` keeps `H == U^T A V` for any `rsqrt` |
| Bidiag.MakeUpperBidiagTracks | LibCommon/LinearAlgebra/ImplicitQRSVD.cpp:224-241 | `makeUpperBidiag` returns `H`, `U`, `V` with the new `H == U^T H_old V` |
| Bidiag.ZeroChase | LibCommon/LinearAlgebra/ImplicitQRSVD.cpp:167-210 | `H`, `U`, `V` become `ZeroChased` of their old values: rows of `H` with columns of `U`, columns of `H` with columns of `V`; with `ZeroChaseTracks` this keeps `H == U^T A V` |
| Bidiag.MakeUpperBidiag | LibCommon/LinearAlgebra/ImplicitQRSVD.cpp:224-241 | `U`, `V` start at the identity; the result is `MadeUpperBidiag(H)`, `H` is upper bidiagonal and the new `H` equals `U^T H_old V` |
| Svd2.PolarPairAligned | LibCommon/LinearAlgebra/ImplicitQRSVD.cpp:317-327 | the polar pair is parallel to `(x0, -x1)`, whatever the root returns |
| Svd2.PolarSymmetric | LibCommon/LinearAlgebra/ImplicitQRSVD.cpp:316-332 | `S = R^T A` is symmetric for any positive root |
| Svd2.PolarExact | LibCommon/LinearAlgebra/ImplicitQRSVD.cpp:316-332 | with an exact root `R` is a unit pair and the trace of `S` is not negative |
| Svd2.PolarDecomposition | LibCommon/LinearAlgebra/ImplicitQRSVD.cpp:316-332 | `R` receives `PolarPair(A)` (identity when the length is 0) and `S` receives `A` with its rows rotated by `R` |
| Svd2.Sorted | LibCommon/LinearAlgebra/ImplicitQRSVD.cpp:409-419 | after the sort `sigma[0] >= sigma[1]` |
| Svd2.DecomposeSort | LibCommon/LinearAlgebra/ImplicitQRSVD.cpp:409-419 | the values are swapped exactly when out of order, and `V` is then turned a quarter turn; `U` is the polar rotation times `V` |
| Svd2.DecomposeQuads | LibCommon/LinearAlgebra/ImplicitQRSVD.cpp:395-407 | `sigma` is the diagonal of `V^T S V`, the quadratic forms of `S` on the columns of `V` |
| Svd2.TangentFromRoot | LibCommon/LinearAlgebra/ImplicitQRSVD.cpp:385-395 | with an exact root the tangent `t` solves `y t^2 + 2 tau t - y = 0` on both branches of `tau > 0` |
| Svd2.DecomposeMagnitude | LibCommon/LinearAlgebra/ImplicitQRSVD.cpp:361-419 | with an exact root `sigma[0] >= |sigma[1]|`: a negative sign falls on the smaller value |
| Svd2.DecomposeUnit | LibCommon/LinearAlgebra/ImplicitQRSVD.cpp:361-419 | with an exact root `U` and `V` are unit pairs (rotations) |
| Svd2.DecomposeDiagonalizes | LibCommon/LinearAlgebra/ImplicitQRSVD.cpp:361-419 | with an exact root `U^T A V` holds `sigma` on its diagonal; off it is 0, or the sub-`1e-20` off-diagonal of `S` that was treated as 0 |
| Svd2.Svd | LibCommon/LinearAlgebra/ImplicitQRSVD.cpp:369-420 | `U`, `sigma`, `V` receive `Decompose(A)` |
| Svd3.CopySign | LibCommon/LinearAlgebra/ImplicitQRSVD.cpp:463 | `copysign(x, y)` has the magnitude of `x` and the sign of `y` |
| Svd3.WilkinsonShift | LibCommon/LinearAlgebra/ImplicitQRSVD.cpp:459-466 | the shift lies on the far side of `a2` from `a1` |
| Svd3.ShiftIsNearerEigenvalue | LibCommon/LinearAlgebra/ImplicitQRSVD.cpp:449-466 | with an exact root the shift is the eigenvalue of the block `[[a1, b1], [b1, a2]]` nearer to `a2` |
| Svd3.ScaledTol | LibCommon/LinearAlgebra/ImplicitQRSVD.cpp:617 | the scaled tolerance is `tol * max(|B| / 2, 1)`, never below `tol` |
| Svd3.SweepKeepsBidiag | LibCommon/LinearAlgebra/ImplicitQRSVD.cpp:624-630 | one pass of the loop body keeps `B` upper bidiagonal |
| Svd3.Iterate | LibCommon/LinearAlgebra/ImplicitQRSVD.cpp:623-640 | the loop stops before its fuel only when the guard fails; it never makes more sweeps than the fuel |
| Svd3.IterateKeepsBidiag | LibCommon/LinearAlgebra/ImplicitQRSVD.cpp:623-640 | the loop keeps `B` upper bidiagonal |
| Svd3.CaseOf | LibCommon/LinearAlgebra/ImplicitQRSVD.cpp:652-749 | the dispatch takes one of its five branches exactly when the loop guard has failed |
| Svd3.ReducedClears | LibCommon/LinearAlgebra/ImplicitQRSVD.cpp:672-749 | the rotations of the `alpha_2`, `alpha_3`, `alpha_1` branches clear the entries their comments name |
| Svd3.ReducedSplits | LibCommon/LinearAlgebra/ImplicitQRSVD.cpp:652-749 | when the tested entry is 0, every branch leaves `B` block diagonal around the block `process<t>` handles |
| Svd3.ProcessDiagonalizes | LibCommon/LinearAlgebra/ImplicitQRSVD.cpp:473-501 | with an exact root, `process<t>` on a split `B` puts the new `sigma` on the diagonal of `U^T B V` and zeros outside the block |
| Svd3.CopyIn | LibCommon/LinearAlgebra/ImplicitQRSVD.cpp:479-486 | the copy loops fill the 2x2 block of `B` at `t` and `sigma[t..t+2]` |
| Svd3.BlockSvd | LibCommon/LinearAlgebra/ImplicitQRSVD.cpp:475-487 | the 2x2 `svd` on the copy yields `Decompose` of the block, on distinct rotations |
| Svd3.Install | LibCommon/LinearAlgebra/ImplicitQRSVD.cpp:488-500 | the copy-out, the shift of the rotation indices by `t` and the rotation of the columns of `U`, `V` give `Installed` |
| Svd3.Process | LibCommon/LinearAlgebra/ImplicitQRSVD.cpp:472-501 | `U`, `sigma`, `V` become `Processed(B)`, with `sigma[other]` taken from `B`'s diagonal |
| Svd3.FinishedOrdered | LibCommon/LinearAlgebra/ImplicitQRSVD.cpp:652-749 | with an exact root every branch leaves `sigma` sorted by decreasing magnitude, with only the last possibly negative |
| Svd3.FinishedKeeps | LibCommon/LinearAlgebra/ImplicitQRSVD.cpp:652-749 | the sort after `process<t>` keeps `U diag(sigma) V^T` and the magnitudes of `sigma` |
| Svd3.DecomposedOrdered | LibCommon/LinearAlgebra/ImplicitQRSVD.cpp:599-752 | when the loop stops before its fuel runs out, the 3x3 `svd` returns sorted values (exact root) |
| Svd3.LoopTol | LibCommon/LinearAlgebra/ImplicitQRSVD.cpp:617 | the tolerance the loop tests against is never below `tol` |
| Svd3.Loop | LibCommon/LinearAlgebra/ImplicitQRSVD.cpp:600-640 | the bidiagonalization and the shift loop as a value: at most `fuel` sweeps, 3x3 results |
| Svd3.Decomposed | LibCommon/LinearAlgebra/ImplicitQRSVD.cpp:599-752 | the 3x3 `svd` as a value, returning at most `fuel` sweeps; `LoopTracks` and `DecomposedDiagonalizes` relate it to `A` |
| Svd3.SweepTracks | LibCommon/LinearAlgebra/ImplicitQRSVD.cpp:624-630 | one loop pass keeps `B == U^T A V` |
| Svd3.IterateTracks | LibCommon/LinearAlgebra/ImplicitQRSVD.cpp:623-640 | the loop keeps `B == U^T A V` |
| Svd3.LoopTracks | LibCommon/LinearAlgebra/ImplicitQRSVD.cpp:599-640 | wherever the loop stops, `B == U^T A V` for the input `A`, whatever the root routines return |
| Svd3.ReducedTracks | LibCommon/LinearAlgebra/ImplicitQRSVD.cpp:672-749 | the rotations of every dispatch branch keep `B == U^T A V` |
| Svd3.ProcessedPulled | LibCommon/LinearAlgebra/ImplicitQRSVD.cpp:473-501 | after `process<t>`, `U^T A V` is `B` with the block rows and columns rotated by the 2x2 `svd`'s rotations |
| Svd3.ProcessedDiagonal | LibCommon/LinearAlgebra/ImplicitQRSVD.cpp:473-501 | with an exact root, `process<t>` on a split `B == U^T A V` leaves `U^T A V` with the new `sigma` on its diagonal and off-diagonal entries below `1e-20` |
| Svd3.FinishedDiagonal | LibCommon/LinearAlgebra/ImplicitQRSVD.cpp:652-749 | with an exact root, a branch whose tested entry is 0 followed by `process` and the sort leaves `U^T A V` nearly `diag(sigma)` |
| Svd3.TestedWithin | LibCommon/LinearAlgebra/ImplicitQRSVD.cpp:652-749 | the entry a dispatch branch tests is within the tolerance |
| Svd3.ZeroTolDeflatesExactly | LibCommon/LinearAlgebra/ImplicitQRSVD.cpp:623-652 | with tolerance 0, a loop that stops before the fuel runs out stops on an entry that is exactly 0 |
| Svd3.DecomposedDiagonalizes | LibCommon/LinearAlgebra/ImplicitQRSVD.cpp:590-752 | "A = U S V'": with exact roots and a loop that stops on an exactly-0 entry, the returned `U^T A V` has `sigma` on its diagonal and off-diagonal entries below `1e-20` |
| Svd3.ReduceAlpha2 | LibCommon/LinearAlgebra/ImplicitQRSVD.cpp:672-686 | the rotation of the `alpha_2` branch on `B` and `U` |
| Svd3.ReduceAlpha3 | LibCommon/LinearAlgebra/ImplicitQRSVD.cpp:693-719 | the two rotations of the `alpha_3` branch on `B` and `V` |
| Svd3.ReduceAlpha1 | LibCommon/LinearAlgebra/ImplicitQRSVD.cpp:724-748 | the two rotations of the `alpha_1` branch on `B` and `U` |
| Svd3.Finish | LibCommon/LinearAlgebra/ImplicitQRSVD.cpp:653-654 | `process<t>` then `sort0` or `sort1` give `Deflated` |
| Svd3.ReduceAndFinish | LibCommon/LinearAlgebra/ImplicitQRSVD.cpp:672-749 | a branch on a small diagonal entry: its rotations, then `process` and the sort |
| Svd3.Deflate | LibCommon/LinearAlgebra/ImplicitQRSVD.cpp:652-749 | the dispatch tests the five entries in the source's order and yields `Finished` for the case `CaseOf` names |
| Svd3.StartRotation | LibCommon/LinearAlgebra/ImplicitQRSVD.cpp:624-626 | the rotation starting a sweep is `compute(alpha_1^2 - mu, gamma_1)` with the Wilkinson shift `mu` |
| Svd3.ShiftSweep | LibCommon/LinearAlgebra/ImplicitQRSVD.cpp:624-630 | one loop pass leaves `B`, `U`, `V` as `Sweep` of their old values; with `SweepTracks` this keeps `B == U^T A V` |
| Svd3.Bidiagonalize | LibCommon/LinearAlgebra/ImplicitQRSVD.cpp:600-604 | `B` is a fresh copy of `A`, `U`, `V` start at the identity, and the result is `MadeUpperBidiag(A)` |
| Svd3.ShiftLoop | LibCommon/LinearAlgebra/ImplicitQRSVD.cpp:607-640 | the loop ends where `Iterate` does and counts its sweeps |
| Svd3.Converge | LibCommon/LinearAlgebra/ImplicitQRSVD.cpp:623-751 | the loop then the dispatch; the returned count is the number of sweeps |
| Svd3.Svd3x3 | LibCommon/LinearAlgebra/ImplicitQRSVD.cpp:590-752 | `U`, `sigma`, `V` and the count are those of `Decomposed(A)`; with exact roots and a loop that stops on an exactly-0 entry, `U^T A V` is `diag(sigma)` up to off-diagonal entries below `1e-20` |
| SortNet.FlipKeeps | LibCommon/LinearAlgebra/ImplicitQRSVD.cpp:508-511 | `flipSign` keeps `U diag(sigma) V^T` and the magnitudes |
| SortNet.SwapKeeps | LibCommon/LinearAlgebra/ImplicitQRSVD.cpp:535-537 | swapping `sigma`, `U` and `V` entries together keeps the product and the magnitudes |
| SortNet.NegatePairKeeps | LibCommon/LinearAlgebra/ImplicitQRSVD.cpp:546-547 | negating a column of `U` with the same column of `V` keeps the product and `sigma` |
| SortNet.Sorted0Keeps | LibCommon/LinearAlgebra/ImplicitQRSVD.cpp:518-550 | `sort0` keeps `U diag(sigma) V^T` and the multiset of magnitudes |
| SortNet.Sorted1Keeps | LibCommon/LinearAlgebra/ImplicitQRSVD.cpp:556-588 | `sort1` keeps `U diag(sigma) V^T` and the multiset of magnitudes |
| SortNet.FlipKeepsDiagonal | LibCommon/LinearAlgebra/ImplicitQRSVD.cpp:508-511 | `flipSign` keeps `U^T A V` nearly `diag(sigma)` |
| SortNet.SwapKeepsDiagonal | LibCommon/LinearAlgebra/ImplicitQRSVD.cpp:535-537 | swapping a triple keeps `U^T A V` nearly `diag(sigma)` |
| SortNet.NegatePairKeepsDiagonal | LibCommon/LinearAlgebra/ImplicitQRSVD.cpp:546-547 | negating a column of `U` and of `V` keeps `U^T A V` nearly `diag(sigma)` |
| SortNet.FlipTwoKeepsDiagonal | LibCommon/LinearAlgebra/ImplicitQRSVD.cpp:522-523 | two `flipSign` calls keep `U^T A V` nearly `diag(sigma)` |
| SortNet.Sorted0KeepsDiagonal | LibCommon/LinearAlgebra/ImplicitQRSVD.cpp:518-550 | `sort0` keeps `U^T A V` nearly `diag(sigma)` |
| SortNet.Sorted1KeepsDiagonal | LibCommon/LinearAlgebra/ImplicitQRSVD.cpp:556-588 | `sort1` keeps `U^T A V` nearly `diag(sigma)` |
| SortNet.Sorted0Orders | LibCommon/LinearAlgebra/ImplicitQRSVD.cpp:518-550 | given `sigma[0] >= |sigma[1]|`, `sort0` orders the values by decreasing magnitude with the first two not negative |
| SortNet.Sorted1Orders | LibCommon/LinearAlgebra/ImplicitQRSVD.cpp:556-588 | given `sigma[1] >= |sigma[2]|`, `sort1` orders the values likewise |
| SortNet.NegateColumn | LibCommon/LinearAlgebra/ImplicitQRSVD.cpp:510 | `M[i] = -M[i]` negates column `i` only |
| SortNet.SwapColumns | LibCommon/LinearAlgebra/ImplicitQRSVD.cpp:536 | `std::swap(M[i], M[k])` exchanges two columns only |
| SortNet.FlipSign | LibCommon/LinearAlgebra/ImplicitQRSVD.cpp:508-511 | `sigma[i]` and column `i` of `U` are negated; nothing else changes |
| SortNet.SwapTriples | LibCommon/LinearAlgebra/ImplicitQRSVD.cpp:535-537 | the three swaps of a triple give `Swap` of the old frame |
| SortNet.FlipSigns | LibCommon/LinearAlgebra/ImplicitQRSVD.cpp:522-523 | two `flipSign` calls give `FlipTwo` of the old frame |
| SortNet.NegatePairs | LibCommon/LinearAlgebra/ImplicitQRSVD.cpp:546-547 | `U[i] = -U[i]; V[i] = -V[i]` gives `NegatePair` of the old frame |
| SortNet.Sort0 | LibCommon/LinearAlgebra/ImplicitQRSVD.cpp:518-550 | the arrays become `Sorted0` of the old frame |
| SortNet.Sort1 | LibCommon/LinearAlgebra/ImplicitQRSVD.cpp:556-588 | the arrays become `Sorted1` of the old frame |
| Matrix.SetIdentity | LibCommon/LinearAlgebra/ImplicitQRSVD.cpp:818 | `MatMxN(1)`: the matrix becomes the identity |
| Matrix.TransposeSquare | LibCommon/LinearAlgebra/ImplicitQRSVD.cpp:820 | `Q = glm::transpose(Q)` in place |
| Matrix.Assign | LibCommon/LinearAlgebra/ImplicitQRSVD.cpp:832 | `R = A` copies every entry |
| Matrix.Copy | LibCommon/LinearAlgebra/ImplicitQRSVD.cpp:600 | `B = A` into a fresh matrix |
| GivensQR.StepClears | LibCommon/LinearAlgebra/ImplicitQRSVD.cpp:805-808 | one rotation clears row `i` of column `j` and keeps the zeros of earlier columns |
| GivensQR.ColumnSweepClears | LibCommon/LinearAlgebra/ImplicitQRSVD.cpp:805-809 | the inner loop clears column `j` below its diagonal and keeps the earlier columns clear |
| GivensQR.SweepsTriangular | LibCommon/LinearAlgebra/ImplicitQRSVD.cpp:804-810 | the two loops leave `A` upper triangular |
| Givens.RowRotatedMul | LibCommon/LinearAlgebra/ImplicitQRSVD.cpp:807-808 | rotating the rows of `Q` and of `Q*A0` by the same rotation keeps `A == Q*A0` |
| GivensQR.StepKeepsProduct | LibCommon/LinearAlgebra/ImplicitQRSVD.cpp:806-808 | a step keeps the relation `A == Q * A0` |
| GivensQR.ColumnSweepKeepsProduct | LibCommon/LinearAlgebra/ImplicitQRSVD.cpp:805-809 | the inner loop keeps `A == Q * A0` |
| GivensQR.SweepsKeepProduct | LibCommon/LinearAlgebra/ImplicitQRSVD.cpp:804-810 | the two loops keep `A == Q * A0` |
| GivensQR.SweepsIgnoreQ | LibCommon/LinearAlgebra/ImplicitQRSVD.cpp:802-810 | the rotations depend on `A` alone, so `inplaceGivensR` and `simultaneousGivensQR` leave the same `A` |
| GivensQR.Factorization | LibCommon/LinearAlgebra/ImplicitQRSVD.cpp:811-820 | from `Q = I` the sweeps give an upper triangular `R` with `R == Q * A0` |
| GivensQR.InplaceGivensR | LibCommon/LinearAlgebra/ImplicitQRSVD.cpp:792-800 | `A` becomes the sweeps of its old value and is upper triangular |
| GivensQR.ClearColumnR | LibCommon/LinearAlgebra/ImplicitQRSVD.cpp:795-798 | the inner loop of `inplaceGivensR` performs `ColumnSweep` |
| GivensQR.SimultaneousGivensQR | LibCommon/LinearAlgebra/ImplicitQRSVD.cpp:802-814 | `A` and `Q` become the sweeps of their old values, `Q` taking every rotation applied to `A` |
| GivensQR.ClearColumn | LibCommon/LinearAlgebra/ImplicitQRSVD.cpp:805-809 | the inner loop of `simultaneousGivensQR` performs `ColumnSweep` |
| GivensQR.SweepStep | LibCommon/LinearAlgebra/ImplicitQRSVD.cpp:805 | one turn of the inner loop: the sweep from `i` is the sweep from `i - 1` after the step at `i` |
| GivensQR.RotatePair | LibCommon/LinearAlgebra/ImplicitQRSVD.cpp:806-808 | the loop body rotates rows `i - 1`, `i` of `A` and `Q` by the pair computed from `A[j]` |
| GivensQR.InplaceGivensQR | LibCommon/LinearAlgebra/ImplicitQRSVD.cpp:816-821 | `A` becomes an upper triangular `R` and `Q` the transposed product of the rotations, with `R == Q^T * A0` |
| GivensQR.InplaceGivensQRReturning | LibCommon/LinearAlgebra/ImplicitQRSVD.cpp:823-828 | the returning overload: fresh `Q` with `A == Q^T * A0` upper triangular |
| GivensQR.Factor | LibCommon/LinearAlgebra/ImplicitQRSVD.cpp:830-834 | `GivensQR(A, Q, R)`: `R` upper triangular with `R == Q^T * A` |
| GivensQR.FactorPair | LibCommon/LinearAlgebra/ImplicitQRSVD.cpp:836-842 | the pair-returning overload: fresh `Q`, `R` with the same property |
| AppConfig.TrimEnd | LibCommon/Utils/AppConfigReader.h:54 | the erase leaves a prefix that does not end in `" \n\r\t"`, having removed only such characters |
| AppConfig.FirstSlash | LibCommon/Utils/AppConfigReader.h:56 | `find_first_of("//")` is the first `'/'`, or the length when there is none |
| AppConfig.CutComment | LibCommon/Utils/AppConfigReader.h:55-57 | a line with `//` loses everything from its first `'/'`; a line without is kept |
| AppConfig.NextToken | LibCommon/Utils/AppConfigReader.h:64 | `>>` reads nothing exactly from a string of blanks; a word read is non-empty, blank-free and followed by a blank or the end |
| AppConfig.SkippedLine | LibCommon/Utils/AppConfigReader.h:59-61 | a line left empty by the trim and the cut changes nothing |
| AppConfig.PairAssigned | LibCommon/Utils/AppConfigReader.h:63-66 | a line with two words maps the first to the second |
| AppConfig.ValueCarried | LibCommon/Utils/AppConfigReader.h:51-66 | a line with one word maps it to the previous pair's value |
| AppConfig.BlankRemnant | LibCommon/Utils/AppConfigReader.h:51-66 | a line whose kept text is blanks stores the previous pair again |
| AppConfig.KeysAreNames | LibCommon/Utils/AppConfigReader.h:50-67 | every key after the loop is the first word of some line, or the empty name |
| AppConfig.NamesAreKeys | LibCommon/Utils/AppConfigReader.h:53-67 | the first word of every line becomes a key and no later line removes a key |
| AppConfig.LineKeepsKeys | LibCommon/Utils/AppConfigReader.h:63-66 | one line keeps every key and adds its first word |
| AppConfig.LastPairWins | LibCommon/Utils/AppConfigReader.h:53-67 | the last line naming a key decides its value |
| AppConfig.KeyUntouched | LibCommon/Utils/AppConfigReader.h:53-67 | lines that do not name a key leave its value alone |
| AppConfig.SlashBeforeComment | LibCommon/Utils/AppConfigReader.h:55-57 | `a/b 1 // note` keeps only `a` |
| AppConfig.SlashedNameTakesPreviousValue | LibCommon/Utils/AppConfigReader.h:55-66 | that line maps `a` to the previous value |
| AppConfig.BlankFirstLine | LibCommon/Utils/AppConfigReader.h:51-66 | a first line `  // note` stores the empty name with the empty value |
| AppConfig.ReadLinesAppend | LibCommon/Utils/AppConfigReader.h:53-67 | the loop over `a + b` is the loop over `b` after the loop over `a` |
| AppConfig.AppConfigReader.constructor | LibCommon/Utils/AppConfigReader.h:27 | a reader is loaded exactly when its file opens, holding the loop's map, or else an empty map |
| AppConfig.AppConfigReader.LoadConfig | LibCommon/Utils/AppConfigReader.h:40-71 | an unopenable file changes nothing; otherwise the map is the loop's result and the file counts as loaded after the last line |
| AppConfig.AppConfigReader.ReadOne | LibCommon/Utils/AppConfigReader.h:54-66 | the loop body performs `ReadLine` on the map and the two carried strings |
| AppConfig.AppConfigReader.IsFileLoaded | LibCommon/Utils/AppConfigReader.h:29 | returns the loaded flag |
| AppConfig.AppConfigReader.HasParam | LibCommon/Utils/AppConfigReader.h:30 | true exactly for the keys of the map |
| AppConfig.AppConfigReader.GetStringValue | LibCommon/Utils/AppConfigReader.h:35 | the stored string, or `""` for a missing name |
| AppConfig.AppConfigReader.GetIntValue | LibCommon/Utils/AppConfigReader.h:32 | `stoi` of the stored string, or 0 for a missing name |
| AppConfig.AppConfigReader.GetDoubleValue | LibCommon/Utils/AppConfigReader.h:34 | `stod` of the stored string, or 0 for a missing name |
| AppConfig.LoadedParams | LibCommon/Utils/AppConfigReader.h:27-71 | after loading, `hasParam` is true exactly for the lines' first words, plus possibly the empty name |
| FileHelpers.LastIndexOf | LibCommon/Utils/FileHelpers.h:134 | `find_last_of`: the last position of `c`, with no `c` after it, and -1 (`npos`) exactly when `c` is absent |
| FileHelpers.AfterLast | LibCommon/Utils/FileHelpers.h:134 | `substr(find_last_of(c) + 1)` is the suffix after the last `c`, free of `c`, and the whole string when there is no `c` |
| FileHelpers.FileExtension | LibCommon/Utils/FileHelpers.h:133-135 | the extension is the suffix after the last `'.'`, with no `'.'` in it, and the whole path when there is none |
| FileHelpers.Slashed | LibCommon/Utils/FileHelpers.h:139 | every `'\\'` becomes `'/'` and every other character is kept |
| FileHelpers.FileNameHasNoSeparator | LibCommon/Utils/FileHelpers.h:137-141 | the file name is the tail of the path after its last separator, holding neither `/` nor `\\` |
| FileHelpers.FileNameOfPlainName | LibCommon/Utils/FileHelpers.h:140 | a path with no separator is its own file name |
| FileHelpers.GetFileName | LibCommon/Utils/FileHelpers.h:137-141 | the replace loop and the `substr` give `FileNameOf(filePath)`, free of separators |
| FileHelpers.Format04Value | LibCommon/Utils/FileHelpers.h:116 | `%04d` prints a sign for negative numbers and digits that read back as the magnitude, zero-padded to width 4 |
| FileHelpers.Format04 | LibCommon/Utils/FileHelpers.h:116 | `%04d` is at least 4 characters of digits and a leading `-` exactly for negative numbers |
| FileHelpers.FullFilePath | LibCommon/Utils/FileHelpers.h:114-130 | the path holds no NUL, starts with `top/`, is at least 8 characters longer than its parts and ends with `.` and the extension |
| FileHelpers.CString | LibCommon/Utils/FileHelpers.h:116 | `%s` prints up to the first NUL: the whole string when there is none |
| FileHelpers.FullFilePathParts | LibCommon/Utils/FileHelpers.h:114-130 | for NUL-free strings and `fileID >= 0` the path is `top/sub/name.NNNN.ext` with `NNNN` the digits of `fileID` |
| FileHelpers.FullFilePathExtension | LibCommon/Utils/FileHelpers.h:114-135 | `getFileExtension` of such a path gives back a dot-free extension |
| FileHelpers.FullFilePathFileName | LibCommon/Utils/FileHelpers.h:114-141 | `getFileName` of such a path gives back `name.NNNN.ext` |
| FileHelpers.NumberHasNoSeparator | LibCommon/Utils/FileHelpers.h:116 | `%04d` output holds no path separator |

## Left out

- Floating point is not modelled. `T` is `real`, and rounding, overflow, NaN and the "up to rounding" promises of the comments are outside the model.
- `MathHelpers::approx_rsqrt`, `std::sqrt` and `glm::length` are parameters, since their code is not part of this model. Claims that need exact roots assume `ExactRoot(sqrt)`. The reciprocal root `rsqrt` is never assumed exact, so unit length of the Givens pairs and orthogonality of `U`, `V`, `Q` are not proved; `Q^T A0 == R` is.
- Svd3.DecomposedDiagonalizes: `U^T A V == diag(sigma)` up to entries below `1e-20` is proved only with exact roots and when the loop stops on an entry that is exactly 0 (always so with `tol == 0`, by `ZeroTolDeflatesExactly`). With `tol > 0` the branch drops an entry up to the tolerance, and `U^T A V` differs from `diag(sigma)` by what it dropped; that bound is not proved. Orthogonality of `U` and `V` is not proved either.
- Svd3.Svd3x3: the diagonalization `ensures` carries the same conditions as `DecomposedDiagonalizes`.
- Svd3.Svd3x3: the shift loop carries a `fuel` bound, because the source loop has no iteration limit and its termination depends on rounding. The count and the values are those of the unbounded loop whenever it stops within `fuel`.
- Svd3.Svd3x3: requires `tol >= 0`. The default is a positive multiple of epsilon, A negative tolerance keeps the loop guard from ever failing, so the source loop does not end. It can also make `wilkinsonShift` divide by 0, once `alpha_2` or `beta_2` reaches 0 while `a1 == a2`.
- Svd3.WilkinsonShift: requires `a1 != a2 || b1 != 0`. The source divides 0 by 0 there. The loop only calls it with `b1 = alpha_2 * beta_2 != 0`.
- The quality of the Wilkinson shift and the closest-rotation claims of the polar decomposition are not proved.
- `makeLambdaShape` (LibCommon/LinearAlgebra/ImplicitQRSVD.cpp:255-301) is not part of this model.
- The 3x3 `polarDecomposition` (775-789) is not part of this model.
- These wrapper overloads are not modelled. They only compose `polarDecomposition`, `svd` and `fill`, all of which are modelled:
  - the `Mat2x2`-output `polarDecomposition` and `svd`, and the pair or tuple returning overloads (347-358, 431-447, 768-773).
- The template instantiation macro is not modelled.
- GivensQR.SimultaneousGivensQR: requires `A` and `Q` to be distinct matrices. The source takes them as two references and never passes the same matrix twice.
- AppConfig.AppConfigReader.LoadConfig: the file arrives as a sequence of lines. `ifstream` and `getline` are not modelled, and neither is the warning that `bPrintErr` prints with `fprintf`.
- AppConfig.AppConfigReader.GetIntValue and AppConfig.AppConfigReader.GetDoubleValue: `stoi` and `stod` are parameters. Their exceptions on malformed text are not modelled.
- `getFloatValue` and `getRealValue` are not modelled; they are `static_cast`s of `getDoubleValue`.
- FileHelpers.FullFilePath: the 512-character truncation of `NT_SPRINT` is not modelled.
- The file-system functions of `FileHelpers.h` and `Logger.h` are not part of this model.

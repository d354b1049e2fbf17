# Covariance derivatives, pattern cache and subject accumulator of mmrm

This project models the core of `src/chol_derivative.cpp` from the mmrm
package in Dafny and proves properties of it. The core does three things
for a covariance matrix Sigma = L * L^t, parametrised by a vector theta of
n_theta parameters over n_visits visits:

- **Derivative assembly** (`derivatives`, module `DerivativeAssembly`).
  From the factor L and the Jacobians of L, it builds two stacks:
  - `derivative1`: n_theta blocks dSigma/dtheta_i;
  - `derivative2`: n_theta^2 blocks d2Sigma/dtheta_i dtheta_j, in i-major
    order.
- **Pattern cache** (`struct chols`, module `PatternCache`). A class with
  four maps keyed by visit patterns: the covariance, its inverse, and the
  two derivative stacks.
  - The full pattern 0 .. n_visits - 1 is seeded at construction.
  - Every other pattern is filled on its first lookup. The filler restricts
    the full entry to the pattern's visits, which is S * M * S^t for the
    selection matrix S (module `Selection`).
- **Subject accumulator** (`test2`, module `Accumulator`). For each subject
  it slices the subject's rows Xi out of the design matrix and the subject's
  visit pattern out of the visit indices, looks the pattern up, and adds the
  quadratic forms Xi^t * W * Xi into the stacked accumulators P, Q and R.

Module `Matrices` holds what the three share:
- dense real matrices as sequences of rows;
- products and transposes;
- stacking of equal-height blocks, with block k at row k * height.

How the model is organised:
- Imperative code stays imperative. `derivatives`, the cache getters and the
  subject loop are methods with loops and invariants. `Chols` is a class
  whose getters update its map fields in place.
- Each method is proved against a specification function: `Derivative1`,
  `Derivative2`, `FullPattern.SigmaAt` and friends, and `Sums`.
- The properties the source promises are proved as lemmas about those
  functions.

The differentiation engine, the LLT inverse and the R interface are outside
the model:
- L, dL and d2L enter as the flat column-major vectors the engine returns.
- The inverse is a parameter `inverse: Matrix -> Matrix`, assumed only to
  keep a square shape.

Where the code as written has no evident meaning, the model follows its
evident intent. Each divergence is listed in the header comment of the file
concerned and below.
- **Cross term of the second derivative.** Line 90 computes
  2 * dL_i * L^t, which is not symmetric in general; a cross term
  2 * dL_i * dL_j^t would not be symmetric either. The model uses the
  product rule,
  dL_i * dL_j^t + dL_j * dL_i^t, and proves every block symmetric.
- **Line 208, sign.** Line 208 has no minus sign. The model uses
  d(Sigma^-1)/dtheta_r = -Sigma^-1 * dSigma_r * Sigma^-1. The P and Q
  contributions are therefore stated with that sign.
- **Lines 112-125, constructor seeding.** The model seeds all four maps:
  - full_visit is 0 .. n_visits - 1;
  - the stacks of `derivatives` are stored unchanged, instead of lines
    122-124 multiplying them by L^t again;
  - the inverse entry is Sigma^-1, not L (line 125);
  - `sigma_cache` is seeded with Sigma.
- **Lines 135, 149 and 161, source of a miss.** These read the missing key.
  The model restricts the full pattern's entry.
- **Lines 147-149, block count.** The model restricts all n_theta^2
  second-derivative blocks.
- **Line 171, `chol_cache`.** The model reads the full factor L.
- **Lines 188-190, initial values.** P, Q and R start at zero.
- **Lines 195-196.** These redeclare variables; they are dropped.
- **Line 200, `as_matrix`.** It never copies its input; the model uses X
  itself.
- **Line 204.** It fetches the first derivative where the second is used;
  the model fetches the second.
- **Lines 215-217, block offsets.** Block (r, j) is placed at
  r * n_theta + j in all three lines.

`PatternOutOfRange` is the model's error for a visit index outside
0 .. n_visits - 1. The source does not check for it. In the model, a getter
given such a pattern returns `Failure(PatternOutOfRange(visits))` and leaves
its map unchanged. `test2` stops at the first subject whose pattern is out
of range and returns that error.

## Model

| member | source | states |
|---|---|---|
| Matrices.TransposeMulT | src/chol_derivative.cpp:83-84 | (a * b^t)^t = b * a^t, so pllt^t = L * dL_i^t and each first-derivative block is dL_i * L^t + L * dL_i^t |
| Matrices.ConcatBlock | src/chol_derivative.cpp:85 | stacking b blocks of height h gives b * h rows, and reading back block k at row k * h gives exactly block k |
| Matrices.ConcatAt | src/chol_derivative.cpp:85 | row k * h + t of a stack of height-h blocks is row t of block k |
| Matrices.ChunksOfConcat | src/chol_derivative.cpp:81 | cutting a stack of height-h blocks back into blocks returns the original blocks |
| Matrices.ConcatOfChunks | src/chol_derivative.cpp:81 | stacking the consecutive segments of a vector gives the vector back |
| Matrices.PairIndex | src/chol_derivative.cpp:87 | the position i * n_theta + j of pair (i, j) lies below n_theta^2 |
| Matrices.PairIndexInjective | src/chol_derivative.cpp:91 | distinct parameter pairs (i, j) get distinct positions i * n_theta + j |
| Matrices.BlockRowsDisjoint | src/chol_derivative.cpp:85 | distinct block positions of height h occupy disjoint row ranges |
| Matrices.PairBlocksDisjoint | src/chol_derivative.cpp:91 | distinct pairs (i, j) write disjoint row ranges of the second-derivative stack |
| Selection.SelectMatrix | src/chol_derivative.cpp:131 | the m x n_visits 0/1 selection matrix, whose row a has its one 1 in column visits[a], m being the pattern length; SelectMatrixPicksRows states that multiplying by it picks the pattern's rows |
| Selection.Restrict | src/chol_derivative.cpp:161 | the m x m principal sub-block, m being the pattern length, at the pattern, entry (a, b) = M[visits[a]][visits[b]]; SelectionIsRestriction proves it is S * M * S^t, RestrictSymmetric that it keeps symmetry, and RestrictBlocksLayout applies it to every block as line 135 does |
| Selection.SelectMatrixPicksRows | src/chol_derivative.cpp:171 | S * M computed as a matrix product is the rows of M at the pattern, in pattern order |
| Selection.SelectionIsRestriction | src/chol_derivative.cpp:161 | S * M * S^t computed with the explicit selection matrix equals the index function Restrict: entry (a, b) is M[visits[a]][visits[b]] |
| Selection.RestrictFull | src/chol_derivative.cpp:112-125 | restricting to the full pattern 0 .. n - 1 is the identity, so the seeded full entries agree with what a restriction would give |
| Selection.RestrictSymmetric | src/chol_derivative.cpp:161 | the principal sub-block of a symmetric matrix is symmetric |
| Selection.RestrictOfCrossProduct | src/chol_derivative.cpp:171-172 | (S * L) * (S * L)^t = S * (L * L^t) * S^t, so the covariance re-formed on a miss is the restricted Sigma |
| Selection.RestrictBlocksLayout | src/chol_derivative.cpp:133-136 | for a pattern of length m, the restricted stack has count * m rows and m columns, and its block k is the principal sub-block of full block k at the visits, in visits order |
| Selection.RestrictBlocksFull | src/chol_derivative.cpp:131-136 | restricting every block of a stack to the full pattern gives the stack back |
| DerivativeAssembly.CholFactor | src/chol_derivative.cpp:72-73 | the n x n factor L read from the engine's vector of length n^2; ColumnMajorAt gives its entries in column-major order and ColumnMajorOfVec the round trip |
| DerivativeAssembly.ColumnMajorAt | src/chol_derivative.cpp:72-73 | entry (r, c) of the matrix read from the flat vector is element c * n + r |
| DerivativeAssembly.ColumnMajorOfVec | src/chol_derivative.cpp:72-73 | reading back the vectorisation of an n x n matrix gives the matrix |
| DerivativeAssembly.VecOfColumnMajor | src/chol_derivative.cpp:72-73 | vectorising the matrix read from a flat vector of length n^2 gives the vector |
| DerivativeAssembly.JacobianBlock | src/chol_derivative.cpp:81 | the n x n matrix read from segment i, stride n^2, of the Jacobian; JacobianRoundTrip states that this recovers dL_i |
| DerivativeAssembly.JacobianBlockAsWritten | src/chol_derivative.cpp:81 | the n x n matrix line 81 reads, from offset i * n_visits; JacobianStrideCounterexample shows that it is not dL_1 |
| DerivativeAssembly.HessianBlock | src/chol_derivative.cpp:87 | the n x n matrix d2L for pair (i, j), read from segment i * n_theta + j, stride n^2, of the second Jacobian; Derivative2Layout states where its block lands |
| DerivativeAssembly.JacobianRoundTrip | src/chol_derivative.cpp:76-82 | reading segment i (stride n^2) of the Jacobian of dL_0 .. dL_{n_theta-1} recovers dL_i |
| DerivativeAssembly.JacobianVecOfBlocks | src/chol_derivative.cpp:76-82 | the n_theta blocks read from a Jacobian vectorise back to that Jacobian |
| DerivativeAssembly.JacobianStrideCounterexample | src/chol_derivative.cpp:81 | with the stride of line 81 as written, the block read for parameter 1 of a two-parameter 2 x 2 Jacobian differs from dL_1 |
| DerivativeAssembly.SigmaD1Block | src/chol_derivative.cpp:83-84 | the n x n block dL_i * L^t plus its transpose; SigmaD1ProductRule states it is the product-rule derivative of L * L^t and symmetric |
| DerivativeAssembly.SigmaD1ProductRule | src/chol_derivative.cpp:83-84 | the first-derivative block equals dL_i * L^t + L * dL_i^t (product rule on L * L^t) and is symmetric |
| DerivativeAssembly.SigmaD2Block | src/chol_derivative.cpp:89-90 | the n x n product-rule second-derivative block; SigmaD2Symmetric states it is symmetric and SigmaD2Exchange that it is symmetric in the two parameters |
| DerivativeAssembly.SigmaD2BlockAsWritten | src/chol_derivative.cpp:89-90 | the n x n block of line 90 as written, with cross term 2 * dL_i * L^t; CrossTermCounterexample shows it can be non-symmetric |
| DerivativeAssembly.SigmaD2Symmetric | src/chol_derivative.cpp:89-90 | every second-derivative block d2L * L^t + L * d2L^t + dL_i * dL_j^t + dL_j * dL_i^t is symmetric |
| DerivativeAssembly.SigmaD2Exchange | src/chol_derivative.cpp:90 | exchanging the two parameters' first derivatives leaves the second-derivative block unchanged |
| DerivativeAssembly.CrossTermCounterexample | src/chol_derivative.cpp:90 | with the cross term of line 90 as written, L = I, dL_i = [[0, 0], [1, 0]] and d2L = 0 give a block that is not symmetric |
| DerivativeAssembly.Derivative1Layout | src/chol_derivative.cpp:78-85 | derivative1 is n_theta * n_visits by n_visits; its block i, at row i * n_visits, is dL_i * L^t plus its transpose and is symmetric |
| DerivativeAssembly.Derivative2Layout | src/chol_derivative.cpp:79-91 | derivative2 is n_theta^2 * n_visits by n_visits; its block (i, j), at row (i * n_theta + j) * n_visits, is the product-rule second derivative and is symmetric |
| DerivativeAssembly.Derivative2Exchange | src/chol_derivative.cpp:86-91 | blocks (i, j) and (j, i) of derivative2 agree whenever the engine's d2L blocks (i, j) and (j, i) do |
| DerivativeAssembly.GridShape | src/chol_derivative.cpp:79 | flattening an n_theta x n_theta grid of n x n blocks gives n_theta^2 blocks and an n_theta^2 * n by n matrix |
| DerivativeAssembly.AppendSecondDerivativeRow | src/chol_derivative.cpp:86-92 | the inner loop appends blocks (i, 0) .. (i, n_theta - 1) of the second-derivative grid, in order, to the stack built so far |
| DerivativeAssembly.Derivatives | src/chol_derivative.cpp:67-97 | the nested loops return L, and stacks equal to Derivative1 and Derivative2, whose layout and symmetry the lemmas above state |
| PatternCache.Assemble | src/chol_derivative.cpp:116-121 | the full-pattern data built from the engine's outputs has an n x n factor, an n_theta * n by n first stack and an n_theta^2 * n by n second stack |
| PatternCache.MakeFullVisit | src/chol_derivative.cpp:112-114 | the full visit pattern is 0, 1, ..., n_visits - 1 |
| PatternCache.SeededCachesHold | src/chol_derivative.cpp:122-125 | the four maps seeded with the full pattern alone satisfy the cache invariant: every entry is its pattern's restriction of the full data |
| PatternCache.RestrictEach | src/chol_derivative.cpp:133-136 | the block loop of a miss builds exactly the stack of the full blocks each restricted to the pattern |
| PatternCache.PatternDerivative1Symmetric | src/chol_derivative.cpp:133-136 | for a pattern inside 0 .. n_visits - 1, every block of the first-derivative stack a miss stores is square of the pattern's size and symmetric |
| PatternCache.PatternDerivative2Symmetric | src/chol_derivative.cpp:147-150 | for such a pattern, block (i, j) of the second-derivative stack a miss stores, at i * n_theta + j, is square of the pattern's size and symmetric |
| PatternCache.Chols.constructor | src/chol_derivative.cpp:110-126 | after construction the invariant holds, the full data is what `derivatives` returns, and each of the four maps holds exactly the full-pattern key |
| PatternCache.Chols.GetSigmaDerivative1 | src/chol_derivative.cpp:127-140 | on a hit returns the stored stack and changes nothing; on a miss with a valid pattern inserts exactly that key and returns what it stored; an out-of-range pattern gives PatternOutOfRange and no change; the other three maps never change; every success is the restriction of the full stack |
| PatternCache.Chols.GetSigmaDerivative2 | src/chol_derivative.cpp:141-154 | as for the first derivative, on the second-derivative map with all n_theta^2 blocks restricted |
| PatternCache.Chols.GetSigma | src/chol_derivative.cpp:155-165 | on a hit returns the stored covariance; on a miss inserts S * Sigma * S^t under that key and returns it; errors and other maps as above |
| PatternCache.Chols.GetInverse | src/chol_derivative.cpp:166-180 | on a hit returns the stored inverse; on a miss re-forms S * L * (S * L)^t, inverts it, inserts it under that key and returns it; this equals the inverse of the restricted Sigma |
| PatternCache.LookupTwice | src/chol_derivative.cpp:127-180 | looking a pattern up twice gives identical results; for a pattern inside 0 .. n_visits - 1 each of the four maps ends as its old value with that key set to the pattern's restriction of the full data, and the second round of lookups changes no map; an out-of-range pattern changes nothing; no key is ever dropped |
| Accumulator.SubjectVisits | src/chol_derivative.cpp:198-199 | subject i's n_visits_i visit indices; SubjectSlices states which entries they are |
| Accumulator.SubjectRows | src/chol_derivative.cpp:201 | subject i's n_visits_i x p rows of X; SubjectSlices states that they are aligned with its visits |
| Accumulator.SubjectSlices | src/chol_derivative.cpp:193-201 | subject i's rows of X and its visit indices have the same length n_visits_i and are aligned: row a is global row start_i + a, observed at visit visits_zero_inds[start_i + a] |
| Accumulator.ComputeInverseDerivatives | src/chol_derivative.cpp:206-209 | the loop fills sigma_inv_d1 with the stack of all n_theta inverse derivatives |
| Accumulator.InverseDerivative | src/chol_derivative.cpp:208 | the m x m inverse derivative for parameter r, -Sigma^-1 * dSigma_r * Sigma^-1; InverseDerivativesLayout places it at block r |
| Accumulator.InverseDerivativesLayout | src/chol_derivative.cpp:207-208 | block r of sigma_inv_d1 is -Sigma^-1 * dSigma_r * Sigma^-1 |
| Accumulator.AddSubjectRow | src/chol_derivative.cpp:213-218 | the inner loop adds the subject's Q and R terms (r, j) to block j of row r, for every j, and to nothing else |
| Accumulator.AddSubject | src/chol_derivative.cpp:210-219 | every P block r and Q, R block (r, j) becomes its old value plus the subject's own term for that block |
| Accumulator.PairIndexAsWritten | src/chol_derivative.cpp:215-217 | the block offset r * stride + j of lines 215-217, which for j below the stride stays inside block r's range; PairIndexCollision and PairIndexOverflow show the stride p does not match n_theta |
| Accumulator.PairIndexCollision | src/chol_derivative.cpp:215-217 | with the offsets as written, one covariate and two parameters, terms (0, 1) and (1, 0) land in the same block |
| Accumulator.PairIndexOverflow | src/chol_derivative.cpp:215-217 | with the offsets as written, three covariates and two parameters, term (1, 1) lands past the last of the four blocks |
| Accumulator.SubjectP | src/chol_derivative.cpp:211 | the p x p term Xi^t * W_r * Xi; PTermMeaning states W_r |
| Accumulator.SubjectQ | src/chol_derivative.cpp:214 | the p x p term Xi^t * W_r * Sigma_i * W_j * Xi; QTermMeaning states it in terms of the full data |
| Accumulator.SubjectR | src/chol_derivative.cpp:216 | the p x p term for block (r, j) of R; RTermMeaning states it and RTermExchange its symmetry in (r, j) |
| Accumulator.PTermMeaning | src/chol_derivative.cpp:208-212 | subject i adds Xi^t * W_r * Xi to P block r, with W_r = -Sigma_i^-1 * (S dSigma_r S^t) * Sigma_i^-1 for the subject's pattern |
| Accumulator.QTermMeaning | src/chol_derivative.cpp:214-215 | subject i adds Xi^t * W_r * Sigma_i * W_j * Xi to Q block (r, j), with W_r as for P |
| Accumulator.RTermMeaning | src/chol_derivative.cpp:216-217 | subject i adds Xi^t * Sigma_i^-1 * (S d2Sigma_rj S^t) * Sigma_i^-1 * Xi to R block (r, j) |
| Accumulator.RTermExchange | src/chol_derivative.cpp:216 | one subject's R terms (r, j) and (j, r) agree whenever the full second-derivative blocks (r, j) and (j, r) do |
| Accumulator.RSumExchange | src/chol_derivative.cpp:192-219 | R blocks (r, j) and (j, r) agree after any number of subjects whenever the full second-derivative blocks (r, j) and (j, r) do |
| Accumulator.GridBlock | src/chol_derivative.cpp:215-217 | in the stacked Q or R, block (r, j) sits at block index r * n_theta + j |
| Accumulator.Stack | src/chol_derivative.cpp:188-190 | stacking gives P of n_theta * p rows and Q, R of n_theta^2 * p rows, with block r of P and block r * n_theta + j of Q and R the corresponding sums |
| Accumulator.ZeroSums | src/chol_derivative.cpp:188-190 | n_theta zero p x p blocks for P and n_theta x n_theta for Q and R; ZeroSumsStart states they are the sums over no subjects |
| Accumulator.ZeroSumsStart | src/chol_derivative.cpp:188-190 | before any subject, the all-zero blocks are the sums over no subjects |
| Accumulator.SumsStep | src/chol_derivative.cpp:192-219 | adding subject i's terms block by block to the sums over subjects 0 .. i - 1 gives the sums over 0 .. i |
| Accumulator.AccumulateSubject | src/chol_derivative.cpp:206-219 | from the cached matrices of subject i's pattern, one pass turns the sums over 0 .. i - 1 into the sums over 0 .. i |
| Accumulator.Fetch | src/chol_derivative.cpp:202-205 | the four lookups succeed exactly when the pattern is inside 0 .. n_visits - 1 and return the pattern's restricted inverse, derivative stacks and covariance; on success each map is its old value with that key set to the restriction, on failure nothing changes; no key is dropped and the cache invariant is kept |
| Accumulator.ProcessSubject | src/chol_derivative.cpp:193-219 | one pass of the subject loop fails exactly when the subject's pattern is out of range, with that pattern's error, and then changes nothing; otherwise it returns the sums over subjects 0 .. i and the patterns of subjects 0 .. i are all cached; no key is dropped |
| Accumulator.FirstInvalid | src/chol_derivative.cpp:192-205 | when some subject among 0 .. k - 1 has a pattern out of range, names the first: its pattern is out of range and every earlier one is inside |
| Accumulator.FirstInvalidAt | src/chol_derivative.cpp:192-205 | a subject whose pattern is out of range, with every earlier pattern inside, is the one FirstInvalid names |
| Accumulator.AccumulateSubjects | src/chol_derivative.cpp:192-220 | the loop fails exactly when some subject's pattern is out of range, with the error of the first such subject (FirstInvalid); otherwise every block is the sum over all subjects of that subject's term and every subject's pattern is cached; no key is dropped |
| Accumulator.Test2 | src/chol_derivative.cpp:183-226 | fails exactly when some subject's pattern is out of range, with the error of the first such subject (FirstInvalid); otherwise returns P, Q and R stacked, each block the sum over subjects of the terms stated by PTermMeaning, QTermMeaning and RTermMeaning |

## Left out

- The R interface is not modelled: `as_vector`, `as_nv`, `as_mv` and `as_matrix` (src/chol_derivative.cpp:40-65), and the `List::create` packaging (lines 221-225). This is the foreign-function boundary. P, Q and R are returned as a value of three matrices.
- The `chol` and `chol_jacobian` functors and the `autodiff::jacobian` calls (lines 9-29, 76-77) are not modelled. The engine and `get_cov_lower_chol_grouped` live in headers that are not part of this model. Their results L, g and h are inputs, and `cov_type` and theta enter only through them.
- The LLT factorisation, triangular solve and `tcrossprod` of `get_inverse` (lines 173-176) are not modelled. They are a library floating-point factorisation. The inverse is an uninterpreted function parameter that keeps a square shape. A singular restricted covariance is therefore not detected.
- Floating point is not modelled: all arithmetic is exact over `real`, so no rounding or accuracy claim is made.
- Machine integers are not modelled: indices and sizes are unbounded, so no 32-bit overflow is captured.
- `return_result` (lines 31-38) is not modelled; it is unused.
- The `spatial` constructor flag (line 110) is not modelled; it is ignored by the code.
- The `derivatives` map keyed by strings (lines 69, 75, 94-95) is modelled as three out-parameters.
- Accumulator.AccumulateSubjects: P, Q and R are kept as a sequence of p x p blocks while subjects are added, and are stacked into tall matrices once at the end (Accumulator.Stack). The in-place `+=` on blocks of one tall matrix is therefore modelled on values; Stack and GridBlock state that the two layouts agree.
- Accumulator.InverseDerivativesLayout: the sign of line 208 is not reproduced. The model states the intended -Sigma^-1 * dSigma_r * Sigma^-1, so P and Q carry that sign.
- PatternCache.Chols.GetInverse: the check that the restricted covariance is positive definite is not modelled (see the LLT line above).

## Findings

| source | as written | input that shows it | evidently intended | confidence | as-written member | corrected member |
|---|---|---|---|---|---|---|
| src/chol_derivative.cpp:81 | segment i of the Jacobian starts at i * n_visits | n_visits = 2, n_theta = 2, g = [0, 0, 0, 0, 1, 1, 1, 1]: the block read for parameter 1 has entry (0, 0) = 0, where dL_1 has 1 | segment i starts at i * n_visits^2, so reading it recovers dL_i | not executed | DerivativeAssembly.JacobianBlockAsWritten, DerivativeAssembly.JacobianStrideCounterexample | DerivativeAssembly.JacobianBlock, DerivativeAssembly.JacobianRoundTrip |
| src/chol_derivative.cpp:90 | the cross term of d2Sigma is 2 * dL_i * L^t | L = I, dL_i = [[0, 0], [1, 0]], d2L = 0: entry (1, 0) is 2 and entry (0, 1) is 0, so the block is not symmetric | dL_i * dL_j^t + dL_j * dL_i^t (product rule), which is symmetric | not executed | DerivativeAssembly.SigmaD2BlockAsWritten, DerivativeAssembly.CrossTermCounterexample | DerivativeAssembly.SigmaD2Block, DerivativeAssembly.SigmaD2Symmetric |
| src/chol_derivative.cpp:215-217 | Q and R block (r, j) at (r * p + j) * p; sigma_d2 block (r * n_visits_i + j) | p = 1, n_theta = 2: terms (0, 1) and (1, 0) both go to block 1; p = 3, n_theta = 2: term (1, 1) goes to block 4 of 4 | block index r * n_theta + j, which is below n_theta^2 and distinct for distinct pairs | not executed | Accumulator.PairIndexAsWritten, Accumulator.PairIndexCollision | Matrices.PairIndex, Matrices.PairIndexInjective |

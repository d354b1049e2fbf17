/** The per-subject accumulator (`test2`, src/chol_derivative.cpp:183-226):
    for every subject, slice its rows out of X and its visit pattern out of
    the flattened visit indices, look the pattern up in the pattern cache,
    and add the quadratic forms Xi^t * W * Xi into the stacked accumulators
    P (n_theta blocks of p x p), Q and R (n_theta^2 blocks each, (r, j)
    i-major).

    Divergences from the code as written, each modelled by its evident intent:
      - lines 188-190 leave P, Q and R uninitialised: here they start at zero;
      - lines 195-196 redeclare start_i and n_visits_i: dropped;
      - line 200 (`as_matrix`) never copies the design matrix: here X is used;
      - line 204 fetches the first derivative for sigma_d2: here the second;
      - line 208 has no minus sign: d(Sigma^-1)/dtheta_r is
        -Sigma^-1 * dSigma_r * Sigma^-1;
      - lines 215 and 217 put block (r, j) at (r * p + j) * p, and line 216
        reads block r * n_visits_i + j of sigma_d2: here both use
        r * n_theta + j (PairIndexAsWritten, PairIndexCollision,
        PairIndexOverflow). */
module Accumulator {
  import opened Matrices
  import opened Selection
  import opened DerivativeAssembly
  import opened PatternCache

  /** test2's design matrix and per-subject bookkeeping: subject i owns the
      rows subjectZeroInds[i] .. + subjectNVisits[i] - 1 of x and the visit
      indices at the same positions of visitsZeroInds. */
  datatype Design = Design(x: Matrix, p: nat, subjectZeroInds: seq<int>,
                           visitsZeroInds: seq<int>, subjectNVisits: seq<int>)

  /** Both slices of subject i are in bounds. */
  predicate SubjectInBounds(d: Design, i: nat) {
    && i < |d.subjectZeroInds| && i < |d.subjectNVisits|
    && 0 <= d.subjectZeroInds[i] && 0 <= d.subjectNVisits[i]
    && d.subjectZeroInds[i] + d.subjectNVisits[i] <= |d.x|
    && d.subjectZeroInds[i] + d.subjectNVisits[i] <= |d.visitsZeroInds|
  }

  predicate WellFormed(d: Design, nSubjects: nat) {
    IsMatrix(d.x, |d.x|, d.p) && forall i :: 0 <= i < nSubjects ==> SubjectInBounds(d, i)
  }

  /** Xi: the rows of subject i (line 201). */
  function SubjectRows(d: Design, i: nat): (xi: Matrix)
    requires IsMatrix(d.x, |d.x|, d.p) && SubjectInBounds(d, i)
    ensures IsMatrix(xi, d.subjectNVisits[i], d.p)
  {
    d.x[d.subjectZeroInds[i] .. d.subjectZeroInds[i] + d.subjectNVisits[i]]
  }

  /** The visit pattern of subject i (lines 198-199). */
  function SubjectVisits(d: Design, i: nat): (v: seq<int>)
    requires SubjectInBounds(d, i)
    ensures |v| == d.subjectNVisits[i]
  {
    d.visitsZeroInds[d.subjectZeroInds[i] .. d.subjectZeroInds[i] + d.subjectNVisits[i]]
  }

  /** The two slices of a subject are aligned: row a of Xi is the observation
      of global row start + a, taken at visit visitsZeroInds[start + a]. */
  lemma SubjectSlices(d: Design, i: nat, a: nat)
    requires IsMatrix(d.x, |d.x|, d.p) && SubjectInBounds(d, i)
    requires a < d.subjectNVisits[i]
    ensures |SubjectRows(d, i)| == |SubjectVisits(d, i)| == d.subjectNVisits[i]
    ensures SubjectRows(d, i)[a] == d.x[d.subjectZeroInds[i] + a]
    ensures SubjectVisits(d, i)[a] == d.visitsZeroInds[d.subjectZeroInds[i] + a]
  {
  }

  /** Xi^t * W * Xi. */
  function QuadForm(x: Matrix, p: nat, w: Matrix): (q: Matrix)
    requires IsMatrix(x, |x|, p) && IsMatrix(w, |x|, |x|)
    ensures IsMatrix(q, p, p)
  {
    Mul(Mul(Transpose(x, p), w, |x|), x, p)
  }

  /** d(Sigma^-1)/dtheta_r = -Sigma^-1 * dSigma_r * Sigma^-1 for a pattern
      with m visits, dSigma_r being block r of the first-derivative stack. */
  function InverseDerivative(sigmaInv: Matrix, sigmaD1: Matrix, nTheta: nat, m: nat, r: nat): (w: Matrix)
    requires IsMatrix(sigmaInv, m, m) && IsMatrix(sigmaD1, nTheta * m, m) && r < nTheta
    ensures IsMatrix(w, m, m)
  {
    BlockShape(sigmaD1, nTheta, m, m, r);
    Scale(-1.0, Mul(Mul(sigmaInv, BlockAt(sigmaD1, nTheta, m, r), m), sigmaInv, m))
  }

  /** The stack of all n_theta inverse derivatives (`sigma_inv_d1`). */
  function InverseDerivatives(sigmaInv: Matrix, sigmaD1: Matrix, nTheta: nat, m: nat): (s: Matrix)
    requires IsMatrix(sigmaInv, m, m) && IsMatrix(sigmaD1, nTheta * m, m)
    ensures IsMatrix(s, nTheta * m, m)
  {
    var blocks := seq(nTheta, r requires 0 <= r < nTheta => InverseDerivative(sigmaInv, sigmaD1, nTheta, m, r));
    StackShape(blocks, m);
    Concat(blocks)
  }

  /** Lines 206-209: fills block r of sigma_inv_d1 for every parameter r. */
  method ComputeInverseDerivatives(sigmaInv: Matrix, sigmaD1: Matrix, nTheta: nat, m: nat) returns (s: Matrix)
    requires IsMatrix(sigmaInv, m, m) && IsMatrix(sigmaD1, nTheta * m, m)
    ensures s == InverseDerivatives(sigmaInv, sigmaD1, nTheta, m)
  {
    ghost var blocks := seq(nTheta, r requires 0 <= r < nTheta => InverseDerivative(sigmaInv, sigmaD1, nTheta, m, r));
    s := [];
    var r := 0;
    while r < nTheta
      invariant 0 <= r <= nTheta
      invariant s == Concat(blocks[..r])
    {
      ConcatPrefixStep(blocks, r);
      s := s + InverseDerivative(sigmaInv, sigmaD1, nTheta, m, r);
      r := r + 1;
    }
    assert blocks[..nTheta] == blocks;
  }

  /** Block r of sigma_inv_d1 is d(Sigma^-1)/dtheta_r. */
  lemma InverseDerivativesLayout(sigmaInv: Matrix, sigmaD1: Matrix, nTheta: nat, m: nat, r: nat)
    requires IsMatrix(sigmaInv, m, m) && IsMatrix(sigmaD1, nTheta * m, m) && r < nTheta
    ensures BlockAt(InverseDerivatives(sigmaInv, sigmaD1, nTheta, m), nTheta, m, r)
         == InverseDerivative(sigmaInv, sigmaD1, nTheta, m, r)
  {
    var blocks := seq(nTheta, k requires 0 <= k < nTheta => InverseDerivative(sigmaInv, sigmaD1, nTheta, m, k));
    ConcatBlock(blocks, m, r);
  }

  /** What one subject adds to P block r (line 211). */
  function SubjectP(xi: Matrix, p: nat, sigmaInvD1: Matrix, nTheta: nat, m: nat, r: nat): (t: Matrix)
    requires IsMatrix(xi, m, p) && IsMatrix(sigmaInvD1, nTheta * m, m) && r < nTheta
    ensures IsMatrix(t, p, p)
  {
    BlockShape(sigmaInvD1, nTheta, m, m, r);
    QuadForm(xi, p, BlockAt(sigmaInvD1, nTheta, m, r))
  }

  /** What one subject adds to Q block (r, j) (line 214). */
  function SubjectQ(xi: Matrix, p: nat, sigma: Matrix, sigmaInvD1: Matrix, nTheta: nat, m: nat, r: nat, j: nat): (t: Matrix)
    requires IsMatrix(xi, m, p) && IsMatrix(sigma, m, m) && IsMatrix(sigmaInvD1, nTheta * m, m)
    requires r < nTheta && j < nTheta
    ensures IsMatrix(t, p, p)
  {
    BlockShape(sigmaInvD1, nTheta, m, m, r);
    BlockShape(sigmaInvD1, nTheta, m, m, j);
    QuadForm(xi, p, Mul(Mul(BlockAt(sigmaInvD1, nTheta, m, r), sigma, m), BlockAt(sigmaInvD1, nTheta, m, j), m))
  }

  /** What one subject adds to R block (r, j) (line 216, reading block
      r * n_theta + j of the second-derivative stack). */
  function SubjectR(xi: Matrix, p: nat, sigmaInv: Matrix, sigmaD2: Matrix, nTheta: nat, m: nat, r: nat, j: nat): (t: Matrix)
    requires IsMatrix(xi, m, p) && IsMatrix(sigmaInv, m, m) && IsMatrix(sigmaD2, (nTheta * nTheta) * m, m)
    requires r < nTheta && j < nTheta
    ensures IsMatrix(t, p, p)
  {
    BlockShape(sigmaD2, nTheta * nTheta, m, m, PairIndex(r, j, nTheta));
    QuadForm(xi, p, Mul(Mul(sigmaInv, BlockAt(sigmaD2, nTheta * nTheta, m, PairIndex(r, j, nTheta)), m), sigmaInv, m))
  }

  /** n_theta blocks of size p x p. */
  predicate Blocks(s: seq<Matrix>, nTheta: nat, p: nat) {
    |s| == nTheta && forall r :: 0 <= r < nTheta ==> IsMatrix(s[r], p, p)
  }

  /** n_theta x n_theta blocks of size p x p. */
  predicate Grid(s: seq<seq<Matrix>>, nTheta: nat, p: nat) {
    |s| == nTheta && forall r :: 0 <= r < nTheta ==> Blocks(s[r], nTheta, p)
  }

  /** Lines 212-218 for one r: adds the subject's Q and R terms to row r of
      the Q and R grids, block by block. */
  method AddSubjectRow(qRow: seq<Matrix>, rRow: seq<Matrix>, xi: Matrix, p: nat, sigma: Matrix, sigmaInv: Matrix,
                       sigmaInvD1: Matrix, sigmaD2: Matrix, nTheta: nat, m: nat, r: nat)
    returns (qRow': seq<Matrix>, rRow': seq<Matrix>)
    requires IsMatrix(xi, m, p) && IsMatrix(sigma, m, m) && IsMatrix(sigmaInv, m, m)
    requires IsMatrix(sigmaInvD1, nTheta * m, m) && IsMatrix(sigmaD2, (nTheta * nTheta) * m, m)
    requires r < nTheta && Blocks(qRow, nTheta, p) && Blocks(rRow, nTheta, p)
    ensures Blocks(qRow', nTheta, p) && Blocks(rRow', nTheta, p)
    ensures forall j :: 0 <= j < nTheta ==> qRow'[j] == Add(qRow[j], SubjectQ(xi, p, sigma, sigmaInvD1, nTheta, m, r, j))
    ensures forall j :: 0 <= j < nTheta ==> rRow'[j] == Add(rRow[j], SubjectR(xi, p, sigmaInv, sigmaD2, nTheta, m, r, j))
  {
    qRow', rRow' := qRow, rRow;
    var j := 0;
    while j < nTheta
      invariant 0 <= j <= nTheta
      invariant Blocks(qRow', nTheta, p) && Blocks(rRow', nTheta, p)
      invariant forall k :: 0 <= k < nTheta ==>
                  qRow'[k] == if k < j then Add(qRow[k], SubjectQ(xi, p, sigma, sigmaInvD1, nTheta, m, r, k)) else qRow[k]
      invariant forall k :: 0 <= k < nTheta ==>
                  rRow'[k] == if k < j then Add(rRow[k], SubjectR(xi, p, sigmaInv, sigmaD2, nTheta, m, r, k)) else rRow[k]
    {
      qRow' := qRow'[j := Add(qRow'[j], SubjectQ(xi, p, sigma, sigmaInvD1, nTheta, m, r, j))];
      rRow' := rRow'[j := Add(rRow'[j], SubjectR(xi, p, sigmaInv, sigmaD2, nTheta, m, r, j))];
      j := j + 1;
    }
  }

  /** Lines 210-219: adds one subject's terms to every block of P, Q and R;
      each block receives exactly its own term. */
  method AddSubject(P: seq<Matrix>, Q: seq<seq<Matrix>>, R: seq<seq<Matrix>>, xi: Matrix, p: nat,
                    sigma: Matrix, sigmaInv: Matrix, sigmaInvD1: Matrix, sigmaD2: Matrix, nTheta: nat, m: nat)
    returns (P': seq<Matrix>, Q': seq<seq<Matrix>>, R': seq<seq<Matrix>>)
    requires IsMatrix(xi, m, p) && IsMatrix(sigma, m, m) && IsMatrix(sigmaInv, m, m)
    requires IsMatrix(sigmaInvD1, nTheta * m, m) && IsMatrix(sigmaD2, (nTheta * nTheta) * m, m)
    requires Blocks(P, nTheta, p) && Grid(Q, nTheta, p) && Grid(R, nTheta, p)
    ensures Blocks(P', nTheta, p) && Grid(Q', nTheta, p) && Grid(R', nTheta, p)
    ensures forall r :: 0 <= r < nTheta ==> P'[r] == Add(P[r], SubjectP(xi, p, sigmaInvD1, nTheta, m, r))
    ensures forall r, j :: 0 <= r < nTheta && 0 <= j < nTheta ==>
              Q'[r][j] == Add(Q[r][j], SubjectQ(xi, p, sigma, sigmaInvD1, nTheta, m, r, j))
    ensures forall r, j :: 0 <= r < nTheta && 0 <= j < nTheta ==>
              R'[r][j] == Add(R[r][j], SubjectR(xi, p, sigmaInv, sigmaD2, nTheta, m, r, j))
  {
    P', Q', R' := P, Q, R;
    var r := 0;
    while r < nTheta
      invariant 0 <= r <= nTheta
      invariant Blocks(P', nTheta, p) && Grid(Q', nTheta, p) && Grid(R', nTheta, p)
      invariant forall k :: 0 <= k < nTheta ==>
                  P'[k] == if k < r then Add(P[k], SubjectP(xi, p, sigmaInvD1, nTheta, m, k)) else P[k]
      invariant forall k :: r <= k < nTheta ==> Q'[k] == Q[k] && R'[k] == R[k]
      invariant forall k, j :: 0 <= k < r && 0 <= j < nTheta ==>
                  Q'[k][j] == Add(Q[k][j], SubjectQ(xi, p, sigma, sigmaInvD1, nTheta, m, k, j))
      invariant forall k, j :: 0 <= k < r && 0 <= j < nTheta ==>
                  R'[k][j] == Add(R[k][j], SubjectR(xi, p, sigmaInv, sigmaD2, nTheta, m, k, j))
    {
      P' := P'[r := Add(P'[r], SubjectP(xi, p, sigmaInvD1, nTheta, m, r))];
      var qRow, rRow := AddSubjectRow(Q'[r], R'[r], xi, p, sigma, sigmaInv, sigmaInvD1, sigmaD2, nTheta, m, r);
      Q' := Q'[r := qRow];
      R' := R'[r := rRow];
      r := r + 1;
    }
  }

  /** Lines 215-217 as written place the (r, j) term at block r * stride + j,
      with the covariate count p as stride for Q and R and the pattern size
      for the second-derivative stack, where the stacks are laid out with
      stride n_theta. */
  function PairIndexAsWritten(r: nat, j: nat, stride: nat): (b: nat)
    ensures j < stride ==> r * stride <= b < (r + 1) * stride
  {
    r * stride + j
  }

  /** With one covariate and two parameters, the terms (0, 1) and (1, 0)
      land in the same block as written (the stride-n_theta index keeps
      distinct pairs apart: PairIndexInjective). */
  lemma PairIndexCollision()
    ensures PairIndexAsWritten(0, 1, 1) == PairIndexAsWritten(1, 0, 1)
  {
    assert PairIndexAsWritten(0, 1, 1) == 1;
  }

  /** With three covariates and two parameters, the term (1, 1) lands past
      the last of the four blocks as written (the stride-n_theta index stays
      below n_theta^2: PairIndex). */
  lemma PairIndexOverflow()
    ensures PairIndexAsWritten(1, 1, 3) >= 2 * 2
  {
  }

  /** Subject i can be processed against the full-pattern data f: its slices
      are in bounds and its visits are inside 0 .. n - 1. */
  ghost predicate SubjectReady(f: FullPattern, d: Design, i: nat) {
    f.Valid() && IsMatrix(d.x, |d.x|, d.p) && SubjectInBounds(d, i) && ValidPattern(SubjectVisits(d, i), f.n)
  }

  /** Readiness of subjects 0 .. i - 1 and of subject i is readiness of
      subjects 0 .. i. */
  lemma ReadyExtend(f: FullPattern, d: Design, i: nat)
    requires (forall k :: 0 <= k < i ==> SubjectReady(f, d, k)) && SubjectReady(f, d, i)
    ensures forall k :: 0 <= k < i + 1 ==> SubjectReady(f, d, k)
  {
  }

  /** Subjects 0 .. k - 1 all have patterns inside 0 .. n - 1. */
  predicate PatternsValid(d: Design, n: nat, k: nat)
    requires forall i :: 0 <= i < k ==> SubjectInBounds(d, i)
  {
    forall i :: 0 <= i < k ==> ValidPattern(SubjectVisits(d, i), n)
  }

  lemma ReadyPatterns(f: FullPattern, d: Design, k: nat)
    requires forall i :: 0 <= i < k ==> SubjectReady(f, d, i)
    ensures forall i :: 0 <= i < k ==> SubjectInBounds(d, i)
    ensures PatternsValid(d, f.n, k)
  {
    forall i | 0 <= i < k
      ensures SubjectInBounds(d, i) && ValidPattern(SubjectVisits(d, i), f.n)
    {
      assert SubjectReady(f, d, i);
    }
  }

  /** The first of subjects 0 .. k - 1 whose pattern leaves 0 .. n - 1. */
  function FirstInvalid(d: Design, n: nat, k: nat): (j: nat)
    requires forall i :: 0 <= i < k ==> SubjectInBounds(d, i)
    requires !PatternsValid(d, n, k)
    ensures j < k && PatternsValid(d, n, j) && !ValidPattern(SubjectVisits(d, j), n)
  {
    if PatternsValid(d, n, k - 1) then k - 1 else FirstInvalid(d, n, k - 1)
  }

  /** A subject whose pattern is invalid, after subjects with valid
      patterns only, is the first invalid one of any longer prefix. */
  lemma {:induction false} FirstInvalidAt(d: Design, n: nat, k: nat, i: nat)
    requires forall j :: 0 <= j < k ==> SubjectInBounds(d, j)
    requires i < k && PatternsValid(d, n, i) && !ValidPattern(SubjectVisits(d, i), n)
    ensures !PatternsValid(d, n, k) && FirstInvalid(d, n, k) == i
  {
    if i < k - 1 {
      FirstInvalidAt(d, n, k - 1, i);
    }
  }

  /** The inverse derivatives of subject i's pattern. */
  function SubjectInverseDerivatives(f: FullPattern, d: Design, i: nat): (s: Matrix)
    requires SubjectReady(f, d, i)
    ensures IsMatrix(s, f.nTheta * |SubjectVisits(d, i)|, |SubjectVisits(d, i)|)
  {
    var v := SubjectVisits(d, i);
    InverseDerivatives(f.InverseAt(v), f.SigmaD1At(v), f.nTheta, |v|)
  }

  /** Subject i's term in P block r, from what the cache holds for its pattern. */
  function PTerm(f: FullPattern, d: Design, i: nat, r: nat): (t: Matrix)
    requires SubjectReady(f, d, i) && r < f.nTheta
    ensures IsMatrix(t, d.p, d.p)
  {
    var v := SubjectVisits(d, i);
    SubjectP(SubjectRows(d, i), d.p, SubjectInverseDerivatives(f, d, i), f.nTheta, |v|, r)
  }

  /** Subject i's term in Q block (r, j). */
  function QTerm(f: FullPattern, d: Design, i: nat, r: nat, j: nat): (t: Matrix)
    requires SubjectReady(f, d, i) && r < f.nTheta && j < f.nTheta
    ensures IsMatrix(t, d.p, d.p)
  {
    var v := SubjectVisits(d, i);
    SubjectQ(SubjectRows(d, i), d.p, f.SigmaAt(v), SubjectInverseDerivatives(f, d, i), f.nTheta, |v|, r, j)
  }

  /** Subject i's term in R block (r, j). */
  function RTerm(f: FullPattern, d: Design, i: nat, r: nat, j: nat): (t: Matrix)
    requires SubjectReady(f, d, i) && r < f.nTheta && j < f.nTheta
    ensures IsMatrix(t, d.p, d.p)
  {
    var v := SubjectVisits(d, i);
    SubjectR(SubjectRows(d, i), d.p, f.InverseAt(v), f.SigmaD2At(v), f.nTheta, |v|, r, j)
  }

  /** P block r after subjects 0 .. k - 1: zero plus every subject's term. */
  function PSum(f: FullPattern, d: Design, k: nat, r: nat): (s: Matrix)
    requires forall i :: 0 <= i < k ==> SubjectReady(f, d, i)
    requires r < f.nTheta
    ensures IsMatrix(s, d.p, d.p)
  {
    if k == 0 then Zero(d.p, d.p) else Add(PSum(f, d, k - 1, r), PTerm(f, d, k - 1, r))
  }

  /** Q block (r, j) after subjects 0 .. k - 1. */
  function QSum(f: FullPattern, d: Design, k: nat, r: nat, j: nat): (s: Matrix)
    requires forall i :: 0 <= i < k ==> SubjectReady(f, d, i)
    requires r < f.nTheta && j < f.nTheta
    ensures IsMatrix(s, d.p, d.p)
  {
    if k == 0 then Zero(d.p, d.p) else Add(QSum(f, d, k - 1, r, j), QTerm(f, d, k - 1, r, j))
  }

  /** R block (r, j) after subjects 0 .. k - 1. */
  function RSum(f: FullPattern, d: Design, k: nat, r: nat, j: nat): (s: Matrix)
    requires forall i :: 0 <= i < k ==> SubjectReady(f, d, i)
    requires r < f.nTheta && j < f.nTheta
    ensures IsMatrix(s, d.p, d.p)
  {
    if k == 0 then Zero(d.p, d.p) else Add(RSum(f, d, k - 1, r, j), RTerm(f, d, k - 1, r, j))
  }

  /** Subject i adds Xi^t * W_r * Xi to P block r, W_r being the derivative
      of the pattern's inverse covariance: -Sigma^-1 * S dSigma_r S^t * Sigma^-1
      with S the pattern's selection. */
  lemma PTermMeaning(f: FullPattern, d: Design, i: nat, r: nat)
    requires SubjectReady(f, d, i) && r < f.nTheta
    ensures var v := SubjectVisits(d, i);
            var sigmaInv := f.inverse(Restrict(f.Sigma(), v));
            PTerm(f, d, i, r)
            == QuadForm(SubjectRows(d, i), d.p,
                        Scale(-1.0, Mul(Mul(sigmaInv, Restrict(BlockAt(f.derivative1, f.nTheta, f.n, r), v), |v|), sigmaInv, |v|)))
  {
    var v := SubjectVisits(d, i);
    RestrictBlocksLayout(f.derivative1, f.n, f.nTheta, v, r);
    InverseDerivativesLayout(f.InverseAt(v), f.SigmaD1At(v), f.nTheta, |v|, r);
  }

  /** Subject i adds Xi^t * W_r * Sigma * W_j * Xi to Q block (r, j). */
  lemma QTermMeaning(f: FullPattern, d: Design, i: nat, r: nat, j: nat)
    requires SubjectReady(f, d, i) && r < f.nTheta && j < f.nTheta
    ensures var v := SubjectVisits(d, i);
            var sigmaInv := f.inverse(Restrict(f.Sigma(), v));
            var wr := Scale(-1.0, Mul(Mul(sigmaInv, Restrict(BlockAt(f.derivative1, f.nTheta, f.n, r), v), |v|), sigmaInv, |v|));
            var wj := Scale(-1.0, Mul(Mul(sigmaInv, Restrict(BlockAt(f.derivative1, f.nTheta, f.n, j), v), |v|), sigmaInv, |v|));
            QTerm(f, d, i, r, j)
            == QuadForm(SubjectRows(d, i), d.p, Mul(Mul(wr, Restrict(f.Sigma(), v), |v|), wj, |v|))
  {
    var v := SubjectVisits(d, i);
    RestrictBlocksLayout(f.derivative1, f.n, f.nTheta, v, r);
    RestrictBlocksLayout(f.derivative1, f.n, f.nTheta, v, j);
    InverseDerivativesLayout(f.InverseAt(v), f.SigmaD1At(v), f.nTheta, |v|, r);
    InverseDerivativesLayout(f.InverseAt(v), f.SigmaD1At(v), f.nTheta, |v|, j);
  }

  /** Subject i adds Xi^t * Sigma^-1 * S d2Sigma_rj S^t * Sigma^-1 * Xi to
      R block (r, j). */
  lemma RTermMeaning(f: FullPattern, d: Design, i: nat, r: nat, j: nat)
    requires SubjectReady(f, d, i) && r < f.nTheta && j < f.nTheta
    ensures var v := SubjectVisits(d, i);
            var sigmaInv := f.inverse(Restrict(f.Sigma(), v));
            RTerm(f, d, i, r, j)
            == QuadForm(SubjectRows(d, i), d.p,
                        Mul(Mul(sigmaInv, Restrict(BlockAt(f.derivative2, f.nTheta * f.nTheta, f.n, PairIndex(r, j, f.nTheta)), v), |v|),
                            sigmaInv, |v|))
  {
    var v := SubjectVisits(d, i);
    assert PairIndex(r, j, f.nTheta) < f.nTheta * f.nTheta;
    RestrictBlocksLayout(f.derivative2, f.n, f.nTheta * f.nTheta, v, PairIndex(r, j, f.nTheta));
  }

  /** One subject's R terms (r, j) and (j, r) agree whenever the full
      second-derivative blocks (r, j) and (j, r) do. */
  lemma RTermExchange(f: FullPattern, d: Design, i: nat, r: nat, j: nat)
    requires SubjectReady(f, d, i) && r < f.nTheta && j < f.nTheta
    requires BlockAt(f.derivative2, f.nTheta * f.nTheta, f.n, PairIndex(r, j, f.nTheta))
          == BlockAt(f.derivative2, f.nTheta * f.nTheta, f.n, PairIndex(j, r, f.nTheta))
    ensures RTerm(f, d, i, r, j) == RTerm(f, d, i, j, r)
  {
    RTermMeaning(f, d, i, r, j);
    RTermMeaning(f, d, i, j, r);
  }

  /** R blocks (r, j) and (j, r) agree after any number of subjects whenever
      the full second-derivative blocks (r, j) and (j, r) do. */
  lemma {:induction false} RSumExchange(f: FullPattern, d: Design, k: nat, r: nat, j: nat)
    requires forall i :: 0 <= i < k ==> SubjectReady(f, d, i)
    requires r < f.nTheta && j < f.nTheta
    requires f.Valid()
    requires BlockAt(f.derivative2, f.nTheta * f.nTheta, f.n, PairIndex(r, j, f.nTheta))
          == BlockAt(f.derivative2, f.nTheta * f.nTheta, f.n, PairIndex(j, r, f.nTheta))
    ensures RSum(f, d, k, r, j) == RSum(f, d, k, j, r)
  {
    if k > 0 {
      RSumExchange(f, d, k - 1, r, j);
      RTermExchange(f, d, k - 1, r, j);
    }
  }

  /** The three outputs of the accumulator: P stacked by r, Q and R stacked
      by (r, j) i-major. */
  datatype Accumulators = Accumulators(P: Matrix, Q: Matrix, R: Matrix)

  /** Stacking a grid of blocks puts block (r, j) at block index
      r * n_theta + j. */
  lemma GridBlock(grid: seq<seq<Matrix>>, nTheta: nat, p: nat, r: nat, j: nat)
    requires Grid(grid, nTheta, p) && r < nTheta && j < nTheta
    ensures IsMatrix(Concat(Concat(grid)), (nTheta * nTheta) * p, p)
    ensures BlockAt(Concat(Concat(grid)), nTheta * nTheta, p, PairIndex(r, j, nTheta)) == grid[r][j]
  {
    GridShape(grid, nTheta, p);
    ConcatAt(grid, nTheta, r, j);
    ConcatBlock(Concat(grid), p, PairIndex(r, j, nTheta));
  }

  /** acc holds the blocks of P, Q and R stacked: P block r at row offset
      r * p, Q and R block (r, j) at row offset (r * n_theta + j) * p. */
  predicate Stacked(acc: Accumulators, P: seq<Matrix>, Q: seq<seq<Matrix>>, R: seq<seq<Matrix>>, nTheta: nat, p: nat)
    requires Blocks(P, nTheta, p) && Grid(Q, nTheta, p) && Grid(R, nTheta, p)
  {
    && IsMatrix(acc.P, nTheta * p, p)
    && IsMatrix(acc.Q, (nTheta * nTheta) * p, p) && IsMatrix(acc.R, (nTheta * nTheta) * p, p)
    && (forall r :: 0 <= r < nTheta ==> BlockAt(acc.P, nTheta, p, r) == P[r])
    && (forall r, j :: 0 <= r < nTheta && 0 <= j < nTheta ==>
          BlockAt(acc.Q, nTheta * nTheta, p, PairIndex(r, j, nTheta)) == Q[r][j])
    && (forall r, j :: 0 <= r < nTheta && 0 <= j < nTheta ==>
          BlockAt(acc.R, nTheta * nTheta, p, PairIndex(r, j, nTheta)) == R[r][j])
  }

  /** Lines 221-225 hand back P, Q and R as stacked matrices. */
  method Stack(P: seq<Matrix>, Q: seq<seq<Matrix>>, R: seq<seq<Matrix>>, nTheta: nat, p: nat) returns (acc: Accumulators)
    requires Blocks(P, nTheta, p) && Grid(Q, nTheta, p) && Grid(R, nTheta, p)
    ensures Stacked(acc, P, Q, R, nTheta, p)
  {
    StackShape(P, p);
    GridShape(Q, nTheta, p);
    GridShape(R, nTheta, p);
    acc := Accumulators(Concat(P), Concat(Concat(Q)), Concat(Concat(R)));
    forall r | 0 <= r < nTheta
      ensures BlockAt(acc.P, nTheta, p, r) == P[r]
    {
      ConcatBlock(P, p, r);
    }
    forall r, j | 0 <= r < nTheta && 0 <= j < nTheta
      ensures BlockAt(acc.Q, nTheta * nTheta, p, PairIndex(r, j, nTheta)) == Q[r][j]
      ensures BlockAt(acc.R, nTheta * nTheta, p, PairIndex(r, j, nTheta)) == R[r][j]
    {
      GridBlock(Q, nTheta, p, r, j);
      GridBlock(R, nTheta, p, r, j);
    }
  }

  /** Lines 188-190, as intended: every block starts at zero. */
  function ZeroSums(nTheta: nat, p: nat): (s: BlockSums)
    ensures Blocks(s.P, nTheta, p) && Grid(s.Q, nTheta, p) && Grid(s.R, nTheta, p)
  {
    BlockSums(seq(nTheta, _ => Zero(p, p)), seq(nTheta, _ => seq(nTheta, _ => Zero(p, p))),
              seq(nTheta, _ => seq(nTheta, _ => Zero(p, p))))
  }

  /** Blocks that agree one by one with the sums over subjects 0 .. k - 1
      are those sums. */
  lemma SumsByBlock(f: FullPattern, d: Design, k: nat, s: BlockSums)
    requires forall i :: 0 <= i < k ==> SubjectReady(f, d, i)
    requires Blocks(s.P, f.nTheta, d.p) && Grid(s.Q, f.nTheta, d.p) && Grid(s.R, f.nTheta, d.p)
    requires forall r :: 0 <= r < f.nTheta ==> s.P[r] == PSum(f, d, k, r)
    requires forall r, j :: 0 <= r < f.nTheta && 0 <= j < f.nTheta ==> s.Q[r][j] == QSum(f, d, k, r, j)
    requires forall r, j :: 0 <= r < f.nTheta && 0 <= j < f.nTheta ==> s.R[r][j] == RSum(f, d, k, r, j)
    ensures s == Sums(f, d, k)
  {
    var t := Sums(f, d, k);
    assert s.P == t.P;
    forall r | 0 <= r < f.nTheta
      ensures s.Q[r] == t.Q[r] && s.R[r] == t.R[r]
    {
    }
    assert s.Q == t.Q;
    assert s.R == t.R;
  }

  /** Before any subject, the zero blocks are the (empty) sums. */
  lemma ZeroSumsStart(f: FullPattern, d: Design)
    ensures ZeroSums(f.nTheta, d.p) == Sums(f, d, 0)
  {
    SumsByBlock(f, d, 0, ZeroSums(f.nTheta, d.p));
  }

  /** Adding subject i's terms block by block to the sums over subjects
      0 .. i - 1 gives the sums over 0 .. i. */
  lemma SumsStep(f: FullPattern, d: Design, i: nat, s: BlockSums, s': BlockSums)
    requires (forall k :: 0 <= k < i ==> SubjectReady(f, d, k)) && SubjectReady(f, d, i)
    requires s == Sums(f, d, i)
    requires Blocks(s'.P, f.nTheta, d.p) && Grid(s'.Q, f.nTheta, d.p) && Grid(s'.R, f.nTheta, d.p)
    requires forall r :: 0 <= r < f.nTheta ==> s'.P[r] == Add(s.P[r], PTerm(f, d, i, r))
    requires forall r, j :: 0 <= r < f.nTheta && 0 <= j < f.nTheta ==> s'.Q[r][j] == Add(s.Q[r][j], QTerm(f, d, i, r, j))
    requires forall r, j :: 0 <= r < f.nTheta && 0 <= j < f.nTheta ==> s'.R[r][j] == Add(s.R[r][j], RTerm(f, d, i, r, j))
    ensures s' == Sums(f, d, i + 1)
  {
    // Each block is its old sum plus one term; what the terms are is not needed.
    hide PTerm, QTerm, RTerm, SubjectReady;
    SumsByBlock(f, d, i + 1, s');
  }

  /** The cached matrices of one pattern, in the order `test2` fetches
      them (lines 202-205). */
  datatype PatternMatrices = PatternMatrices(sigmaInv: Matrix, sigmaD1: Matrix, sigmaD2: Matrix, sigma: Matrix)

  /** What the cache holds for a pattern inside 0 .. n - 1. */
  function CachedMatrices(f: FullPattern, visits: seq<int>): (pm: PatternMatrices)
    requires f.Valid() && ValidPattern(visits, f.n)
    ensures IsMatrix(pm.sigma, |visits|, |visits|) && IsMatrix(pm.sigmaInv, |visits|, |visits|)
  {
    PatternMatrices(f.InverseAt(visits), f.SigmaD1At(visits), f.SigmaD2At(visits), f.SigmaAt(visits))
  }

  /** One pass of the subject loop on the sums (lines 206-219): from the
      matrices the cache holds for subject i's pattern, computes the inverse
      derivatives and adds the subject's terms; starting from the sums over
      subjects 0 .. i - 1 this gives the sums over 0 .. i. */
  method AccumulateSubject(f: FullPattern, d: Design, i: nat, s: BlockSums, pm: PatternMatrices)
    returns (s': BlockSums)
    requires (forall k :: 0 <= k < i ==> SubjectReady(f, d, k)) && SubjectReady(f, d, i)
    requires pm == CachedMatrices(f, SubjectVisits(d, i))
    requires s == Sums(f, d, i)
    ensures s' == Sums(f, d, i + 1)
  {
    var v := SubjectVisits(d, i);
    var xi := SubjectRows(d, i);
    var m := |v|;
    var sigmaInvD1 := ComputeInverseDerivatives(pm.sigmaInv, pm.sigmaD1, f.nTheta, m);
    assert sigmaInvD1 == SubjectInverseDerivatives(f, d, i);
    assert pm.sigma == f.SigmaAt(v) && pm.sigmaInv == f.InverseAt(v) && pm.sigmaD2 == f.SigmaD2At(v);
    var P, Q, R := AddSubject(s.P, s.Q, s.R, xi, d.p, pm.sigma, pm.sigmaInv, sigmaInvD1, pm.sigmaD2, f.nTheta, m);
    s' := BlockSums(P, Q, R);
    SumsStep(f, d, i, s, s');
  }

  /** The visit patterns of subjects 0 .. k - 1 are all in keys. */
  predicate PatternsCached(d: Design, k: nat, keys: set<seq<int>>) {
    forall i :: 0 <= i < k ==> SubjectInBounds(d, i) && SubjectVisits(d, i) in keys
  }

  /** Caching subject k's pattern, with nothing dropped, extends the prefix. */
  lemma CachedExtend(d: Design, k: nat, before: set<seq<int>>, after: set<seq<int>>)
    requires PatternsCached(d, k, before) && before <= after
    requires SubjectInBounds(d, k) && SubjectVisits(d, k) in after
    ensures PatternsCached(d, k + 1, after)
  {
  }

  /** Lines 202-205: the four cache lookups for one subject's pattern. The
      first lookup rejects a pattern outside 0 .. n_visits - 1; after it the
      other three cannot fail. */
  method Fetch(c: Chols, visits: seq<int>) returns (r: Result<PatternMatrices>)
    requires c.Valid()
    modifies c
    ensures c.Valid()
    ensures r.Success? <==> ValidPattern(visits, c.full.n)
    ensures r.Failure? ==> r.error == PatternOutOfRange(visits)
    ensures r.Success? ==> r.value == CachedMatrices(c.full, visits)
    ensures r.Failure? ==> unchanged(c)
    ensures old(c.Keys()).Within(c.Keys())
    ensures r.Success? ==>
              && c.inverseCache == old(c.inverseCache)[visits := c.full.InverseAt(visits)]
              && c.sigmad1Cache == old(c.sigmad1Cache)[visits := c.full.SigmaD1At(visits)]
              && c.sigmad2Cache == old(c.sigmad2Cache)[visits := c.full.SigmaD2At(visits)]
              && c.sigmaCache == old(c.sigmaCache)[visits := c.full.SigmaAt(visits)]
  {
    var found := c.GetInverse(visits);
    if found.Failure? {
      return Failure(found.error);
    }
    var d1 := c.GetSigmaDerivative1(visits);
    var d2 := c.GetSigmaDerivative2(visits);
    var s := c.GetSigma(visits);
    r := Success(PatternMatrices(found.value, d1.value, d2.value, s.value));
  }

  /** P, Q and R while the subject loop runs: one p x p matrix per block. */
  datatype BlockSums = BlockSums(P: seq<Matrix>, Q: seq<seq<Matrix>>, R: seq<seq<Matrix>>)

  /** The sums over subjects 0 .. k - 1, block by block. */
  function Sums(f: FullPattern, d: Design, k: nat): (s: BlockSums)
    requires forall i :: 0 <= i < k ==> SubjectReady(f, d, i)
    ensures Blocks(s.P, f.nTheta, d.p) && Grid(s.Q, f.nTheta, d.p) && Grid(s.R, f.nTheta, d.p)
  {
    BlockSums(seq(f.nTheta, r requires 0 <= r < f.nTheta => PSum(f, d, k, r)),
              seq(f.nTheta, r requires 0 <= r < f.nTheta =>
                seq(f.nTheta, j requires 0 <= j < f.nTheta => QSum(f, d, k, r, j))),
              seq(f.nTheta, r requires 0 <= r < f.nTheta =>
                seq(f.nTheta, j requires 0 <= j < f.nTheta => RSum(f, d, k, r, j))))
  }

  /** One pass of the subject loop (lines 193-219): fetches subject i's
      pattern and adds its terms; a pattern outside 0 .. n_visits - 1 stops
      with that pattern's error. */
  method ProcessSubject(c: Chols, d: Design, i: nat, s: BlockSums) returns (res: Result<BlockSums>)
    requires c.Valid() && IsMatrix(d.x, |d.x|, d.p) && SubjectInBounds(d, i)
    requires (forall k :: 0 <= k < i ==> SubjectReady(c.full, d, k)) && s == Sums(c.full, d, i)
    requires PatternsCached(d, i, c.Cached())
    modifies c
    ensures c.Valid()
    ensures res.Failure? <==> !ValidPattern(SubjectVisits(d, i), c.full.n)
    ensures res.Failure? ==> res.error == PatternOutOfRange(SubjectVisits(d, i))
    ensures res.Success? ==> (forall k :: 0 <= k < i + 1 ==> SubjectReady(c.full, d, k))
    ensures res.Success? ==> res.value == Sums(c.full, d, i + 1)
    ensures old(c.Keys()).Within(c.Keys())
    ensures res.Success? ==> PatternsCached(d, i + 1, c.Cached())
    ensures res.Failure? ==> unchanged(c)
  {
    var visits := SubjectVisits(d, i);
    var fetched := Fetch(c, visits);
    if fetched.Failure? {
      return Failure(fetched.error);
    }
    assert SubjectReady(c.full, d, i);
    ReadyExtend(c.full, d, i);
    var s' := AccumulateSubject(c.full, d, i, s, fetched.value);
    CachedExtend(d, i, old(c.Cached()), c.Cached());
    res := Success(s');
  }

  /** The subject loop of `test2` (lines 192-220) against a pattern cache:
      P, Q and R start at zero and every subject's terms are added in turn.
      The first subject whose visits leave 0 .. n_visits - 1 stops the loop
      with that pattern's error. */
  method AccumulateSubjects(c: Chols, d: Design, nSubjects: nat) returns (res: Result<BlockSums>)
    requires c.Valid() && WellFormed(d, nSubjects)
    modifies c
    ensures c.Valid()
    ensures res.Failure? <==> !PatternsValid(d, c.full.n, nSubjects)
    ensures res.Failure? ==>
              res.error == PatternOutOfRange(SubjectVisits(d, FirstInvalid(d, c.full.n, nSubjects)))
    ensures res.Success? ==> PatternsValid(d, c.full.n, nSubjects) && res.value == Sums(c.full, d, nSubjects)
    ensures old(c.Keys()).Within(c.Keys())
    ensures res.Success? ==> PatternsCached(d, nSubjects, c.Cached())
  {
    // The loop hands the cache invariant to ProcessSubject and back without
    // looking inside it.
    hide CachesHold;
    var s := ZeroSums(c.full.nTheta, d.p);
    ZeroSumsStart(c.full, d);
    var i := 0;
    while i < nSubjects
      invariant 0 <= i <= nSubjects
      invariant c.Valid()
      invariant forall k :: 0 <= k < i ==> SubjectReady(c.full, d, k)
      invariant s == Sums(c.full, d, i)
      invariant old(c.Keys()).Within(c.Keys())
      invariant PatternsCached(d, i, c.Cached())
    {
      assert SubjectInBounds(d, i);
      var next := ProcessSubject(c, d, i, s);
      if next.Failure? {
        ReadyPatterns(c.full, d, i);
        FirstInvalidAt(d, c.full.n, nSubjects, i);
        return next;
      }
      s := next.value;
      i := i + 1;
    }
    ReadyPatterns(c.full, d, nSubjects);
    res := Success(s);
  }

  /** `test2` (lines 183-226): builds the pattern cache from the
      differentiation engine's outputs, runs the subject loop and hands back
      P, Q and R stacked. A subject whose visits leave 0 .. n_visits - 1
      stops the evaluation with that pattern's error; otherwise every block
      is the sum of its subjects' terms. */
  method Test2(d: Design, nSubjects: nat, nVisits: nat, nTheta: nat, l: seq<real>, g: seq<real>, h: seq<real>,
               inverse: Matrix -> Matrix) returns (res: Result<Accumulators>)
    requires WellFormed(d, nSubjects)
    requires |l| == nVisits * nVisits && |g| == nTheta * (nVisits * nVisits)
    requires |h| == (nTheta * nTheta) * (nVisits * nVisits)
    requires KeepsShape(inverse)
    ensures res.Failure? <==> !PatternsValid(d, nVisits, nSubjects)
    ensures res.Failure? ==>
              res.error == PatternOutOfRange(SubjectVisits(d, FirstInvalid(d, nVisits, nSubjects)))
    ensures res.Success? ==>
              var f := Assemble(nVisits, nTheta, l, g, h, inverse);
              var sums := Sums(f, d, nSubjects);
              Stacked(res.value, sums.P, sums.Q, sums.R, nTheta, d.p)
  {
    var mychol := new Chols(nVisits, nTheta, l, g, h, inverse);
    var sums :- AccumulateSubjects(mychol, d, nSubjects);
    var acc := Stack(sums.P, sums.Q, sums.R, nTheta, d.p);
    res := Success(acc);
  }
}

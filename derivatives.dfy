/** Assembly of the derivatives of Sigma = L * L^t from those of its Cholesky
    factor L (`derivatives`, src/chol_derivative.cpp:67-97).

    The automatic-differentiation engine is not part of this model: its three
    results are inputs here, as the flat vectors the source receives.
      - l: vec(L), the n x n factor stored column-major (Eigen's `vec()`
        order, which `resize(n, n)` reads back);
      - g: the Jacobian of vec(L), n_theta consecutive segments of length
        n * n, segment i being vec(dL/dtheta_i);
      - h: the Jacobian of g, n_theta^2 consecutive segments of length n * n,
        segment i * n_theta + j being vec(d2L/dtheta_i dtheta_j).
    Divergences from the code as written, each modelled by its evident intent:
      - line 81 reads segment i * n_visits; the segment stride is n_visits^2
        (JacobianBlockAsWritten, JacobianStrideCounterexample);
      - line 90 adds 2 * dL_i * L^t as the cross term; the product rule needs
        dL_i * dL_j^t + dL_j * dL_i^t (SigmaD2BlockAsWritten,
        CrossTermCounterexample). */
module DerivativeAssembly {
  import opened Matrices

  /** The n x n matrix stored column-major in v: entry (r, c) is v[c * n + r]. */
  function ColumnMajor(v: seq<real>, n: nat): (m: Matrix)
    requires |v| == n * n
    ensures IsMatrix(m, n, n)
  {
    Transpose(Chunks(v, n, n), n)
  }

  /** vec(m): the columns of an n x n matrix, one after the other. */
  function Vec(m: Matrix, n: nat): (v: seq<real>)
    requires IsMatrix(m, n, n)
    ensures |v| == n * n
  {
    ConcatLength(Transpose(m, n), n);
    Concat(Transpose(m, n))
  }

  lemma ColumnMajorAt(v: seq<real>, n: nat, r: nat, c: nat)
    requires |v| == n * n && r < n && c < n
    ensures c * n + r < |v| && ColumnMajor(v, n)[r][c] == v[c * n + r]
  {
    BlockEnd(c, n, n);
  }

  /** Reading back a vectorised matrix gives the matrix. */
  lemma ColumnMajorOfVec(m: Matrix, n: nat)
    requires IsMatrix(m, n, n)
    ensures ColumnMajor(Vec(m, n), n) == m
  {
    var cols := Transpose(m, n);
    ChunksOfConcat(cols, n);
    assert Chunks(Vec(m, n), n, n) == cols;
    var back := Transpose(cols, n);
    forall r | 0 <= r < n
      ensures back[r] == m[r]
    {
    }
  }

  /** Vectorising the matrix read from v gives v. */
  lemma VecOfColumnMajor(v: seq<real>, n: nat)
    requires |v| == n * n
    ensures Vec(ColumnMajor(v, n), n) == v
  {
    var cols := Chunks(v, n, n);
    var m := Transpose(cols, n);
    var back := Transpose(m, n);
    forall c | 0 <= c < n
      ensures back[c] == cols[c]
    {
    }
    assert back == cols;
    ConcatOfChunks(v, n, n);
  }

  /** The factor L itself (lines 72-73). */
  function CholFactor(l: seq<real>, n: nat): (m: Matrix)
    requires |l| == n * n
    ensures IsMatrix(m, n, n)
  {
    ColumnMajor(l, n)
  }

  /** dL/dtheta_i: segment i, of length n * n, of the Jacobian (line 81 as
      intended). */
  function JacobianBlock(g: seq<real>, n: nat, nTheta: nat, i: nat): (d: Matrix)
    requires |g| == nTheta * (n * n) && i < nTheta
    ensures IsMatrix(d, n, n)
  {
    ColumnMajor(BlockAt(g, nTheta, n * n, i), n)
  }

  /** Line 81 as written: the segment starts at i * n rather than i * n * n. */
  function JacobianBlockAsWritten(g: seq<real>, n: nat, i: nat): (d: Matrix)
    requires i * n + n * n <= |g|
    ensures IsMatrix(d, n, n)
  {
    ColumnMajor(g[i * n .. i * n + n * n], n)
  }

  /** The Jacobian the engine returns for the derivatives dl[0], dl[1], ...:
      their column-major vectors, one after the other. */
  function JacobianVec(dl: seq<Matrix>, n: nat): (g: seq<real>)
    requires forall i :: 0 <= i < |dl| ==> IsMatrix(dl[i], n, n)
    ensures |g| == |dl| * (n * n)
  {
    var vs := seq(|dl|, i requires 0 <= i < |dl| => Vec(dl[i], n));
    ConcatLength(vs, n * n);
    Concat(vs)
  }

  /** Reading segment i of the Jacobian recovers dL/dtheta_i. */
  lemma JacobianRoundTrip(dl: seq<Matrix>, n: nat, i: nat)
    requires forall k :: 0 <= k < |dl| ==> IsMatrix(dl[k], n, n)
    requires i < |dl|
    ensures JacobianBlock(JacobianVec(dl, n), n, |dl|, i) == dl[i]
  {
    var vs := seq(|dl|, k requires 0 <= k < |dl| => Vec(dl[k], n));
    ConcatBlock(vs, n * n, i);
    ColumnMajorOfVec(dl[i], n);
  }

  /** The blocks read from a Jacobian vectorise back to it. */
  lemma JacobianVecOfBlocks(g: seq<real>, n: nat, nTheta: nat)
    requires |g| == nTheta * (n * n)
    ensures JacobianVec(seq(nTheta, i requires 0 <= i < nTheta => JacobianBlock(g, n, nTheta, i)), n) == g
  {
    var dl := seq(nTheta, i requires 0 <= i < nTheta => JacobianBlock(g, n, nTheta, i));
    var vs := seq(nTheta, i requires 0 <= i < nTheta => Vec(dl[i], n));
    forall i | 0 <= i < nTheta
      ensures vs[i] == Chunks(g, nTheta, n * n)[i]
    {
      VecOfColumnMajor(BlockAt(g, nTheta, n * n, i), n);
    }
    assert vs == Chunks(g, nTheta, n * n);
    ConcatOfChunks(g, nTheta, n * n);
  }

  /** With the stride of line 81 as written, the second parameter's block of
      a two-parameter 2 x 2 Jacobian is not the second parameter's
      derivative: it straddles the two segments. */
  lemma JacobianStrideCounterexample()
    ensures var g := [0.0, 0.0, 0.0, 0.0, 1.0, 1.0, 1.0, 1.0];
            JacobianBlockAsWritten(g, 2, 1) != JacobianBlock(g, 2, 2, 1)
  {
    var g := [0.0, 0.0, 0.0, 0.0, 1.0, 1.0, 1.0, 1.0];
    ColumnMajorAt(g[2..6], 2, 0, 0);
    ColumnMajorAt(BlockAt(g, 2, 4, 1), 2, 0, 0);
    assert JacobianBlockAsWritten(g, 2, 1)[0][0] == 0.0;
    assert JacobianBlock(g, 2, 2, 1)[0][0] == 1.0;
  }

  /** d2L/dtheta_i dtheta_j: segment i * n_theta + j of the second Jacobian
      (line 87). */
  function HessianBlock(h: seq<real>, n: nat, nTheta: nat, i: nat, j: nat): (d: Matrix)
    requires |h| == (nTheta * nTheta) * (n * n) && i < nTheta && j < nTheta
    ensures IsMatrix(d, n, n)
  {
    ColumnMajor(BlockAt(h, nTheta * nTheta, n * n, PairIndex(i, j, nTheta)), n)
  }

  /** dSigma/dtheta_i (lines 83-84): P + P^t with P = dL_i * L^t. */
  function SigmaD1Block(l: Matrix, dl: Matrix, n: nat): (s: Matrix)
    requires IsMatrix(l, n, n) && IsMatrix(dl, n, n)
    ensures IsMatrix(s, n, n)
  {
    var pllt := MulT(dl, l);
    Add(pllt, Transpose(pllt, n))
  }

  /** The first-derivative block is the product rule applied to L * L^t, and
      it is symmetric. */
  lemma SigmaD1ProductRule(l: Matrix, dl: Matrix, n: nat)
    requires IsMatrix(l, n, n) && IsMatrix(dl, n, n)
    ensures SigmaD1Block(l, dl, n) == Add(MulT(dl, l), MulT(l, dl))
    ensures Symmetric(SigmaD1Block(l, dl, n))
  {
    TransposeMulT(dl, l);
  }

  /** d2Sigma/dtheta_i dtheta_j (line 90 as intended), the second product
      rule on L * L^t: Q + Q^t + dL_i * dL_j^t + dL_j * dL_i^t with
      Q = d2L_ij * L^t. */
  function SigmaD2Block(l: Matrix, dli: Matrix, dlj: Matrix, d2l: Matrix, n: nat): (s: Matrix)
    requires IsMatrix(l, n, n) && IsMatrix(dli, n, n) && IsMatrix(dlj, n, n) && IsMatrix(d2l, n, n)
    ensures IsMatrix(s, n, n)
  {
    var p2llt := MulT(d2l, l);
    Add(Add(p2llt, Transpose(p2llt, n)), Add(MulT(dli, dlj), MulT(dlj, dli)))
  }

  /** Line 90 as written: the cross term is twice dL_i * L^t. */
  function SigmaD2BlockAsWritten(l: Matrix, dli: Matrix, d2l: Matrix, n: nat): (s: Matrix)
    requires IsMatrix(l, n, n) && IsMatrix(dli, n, n) && IsMatrix(d2l, n, n)
    ensures IsMatrix(s, n, n)
  {
    var p2llt := MulT(d2l, l);
    Add(Add(p2llt, Transpose(p2llt, n)), Scale(2.0, MulT(dli, l)))
  }

  /** Every second-derivative block is symmetric. */
  lemma SigmaD2Symmetric(l: Matrix, dli: Matrix, dlj: Matrix, d2l: Matrix, n: nat)
    requires IsMatrix(l, n, n) && IsMatrix(dli, n, n) && IsMatrix(dlj, n, n) && IsMatrix(d2l, n, n)
    ensures Symmetric(SigmaD2Block(l, dli, dlj, d2l, n))
  {
    var s := SigmaD2Block(l, dli, dlj, d2l, n);
    forall a, b | 0 <= a < n && 0 <= b < n
      ensures s[a][b] == s[b][a]
    {
      DotSymmetric(dli[a], dlj[b]);
      DotSymmetric(dlj[a], dli[b]);
    }
  }

  /** Exchanging the two parameters leaves the block unchanged when the
      second derivative of L is the same for (i, j) and (j, i). */
  lemma SigmaD2Exchange(l: Matrix, dli: Matrix, dlj: Matrix, d2l: Matrix, n: nat)
    requires IsMatrix(l, n, n) && IsMatrix(dli, n, n) && IsMatrix(dlj, n, n) && IsMatrix(d2l, n, n)
    ensures SigmaD2Block(l, dli, dlj, d2l, n) == SigmaD2Block(l, dlj, dli, d2l, n)
  {
    var s, t := SigmaD2Block(l, dli, dlj, d2l, n), SigmaD2Block(l, dlj, dli, d2l, n);
    forall a | 0 <= a < n
      ensures s[a] == t[a]
    {
    }
  }

  /** With the cross term of line 90 as written, L = I, dL_i = [[0, 0], [1, 0]]
      and d2L_ij = 0 give a second-derivative block that is not symmetric,
      although every second derivative of the symmetric Sigma is. */
  lemma CrossTermCounterexample()
    ensures var l := [[1.0, 0.0], [0.0, 1.0]];
            var dli := [[0.0, 0.0], [1.0, 0.0]];
            var zero := [[0.0, 0.0], [0.0, 0.0]];
            !Symmetric(SigmaD2BlockAsWritten(l, dli, zero, 2))
  {
    var l := [[1.0, 0.0], [0.0, 1.0]];
    var dli := [[0.0, 0.0], [1.0, 0.0]];
    var zero := [[0.0, 0.0], [0.0, 0.0]];
    var s := SigmaD2BlockAsWritten(l, dli, zero, 2);
    assert Dot(dli[1], l[0]) == 1.0;
    assert Dot(dli[0], l[1]) == 0.0;
    assert Dot(zero[0], l[1]) == 0.0 && Dot(zero[1], l[0]) == 0.0;
    assert s[1][0] == 2.0;
    assert s[0][1] == 0.0;
  }

  /** The n_theta first-derivative blocks, in parameter order. */
  function Derivative1Blocks(n: nat, nTheta: nat, l: seq<real>, g: seq<real>): (bs: seq<Matrix>)
    requires |l| == n * n && |g| == nTheta * (n * n)
    ensures |bs| == nTheta && forall i :: 0 <= i < nTheta ==> IsMatrix(bs[i], n, n)
  {
    seq(nTheta, i requires 0 <= i < nTheta =>
      SigmaD1Block(CholFactor(l, n), JacobianBlock(g, n, nTheta, i), n))
  }

  /** The n_theta x n_theta second-derivative blocks, row i holding (i, j)
      for every j. */
  function Derivative2Grid(n: nat, nTheta: nat, l: seq<real>, g: seq<real>, h: seq<real>): (grid: seq<seq<Matrix>>)
    requires |l| == n * n && |g| == nTheta * (n * n) && |h| == (nTheta * nTheta) * (n * n)
    ensures |grid| == nTheta && Uniform(grid, nTheta)
    ensures forall i, j :: 0 <= i < nTheta && 0 <= j < nTheta ==> IsMatrix(grid[i][j], n, n)
  {
    seq(nTheta, i requires 0 <= i < nTheta =>
      seq(nTheta, j requires 0 <= j < nTheta =>
        SigmaD2Block(CholFactor(l, n), JacobianBlock(g, n, nTheta, i), JacobianBlock(g, n, nTheta, j),
                     HessianBlock(h, n, nTheta, i, j), n)))
  }

  /** `derivative1`: the first-derivative blocks stacked. */
  function Derivative1(n: nat, nTheta: nat, l: seq<real>, g: seq<real>): (d: Matrix)
    requires |l| == n * n && |g| == nTheta * (n * n)
    ensures IsMatrix(d, nTheta * n, n)
  {
    StackShape(Derivative1Blocks(n, nTheta, l, g), n);
    Concat(Derivative1Blocks(n, nTheta, l, g))
  }

  /** `derivative2`: the second-derivative blocks stacked, (i, j) i-major. */
  function Derivative2(n: nat, nTheta: nat, l: seq<real>, g: seq<real>, h: seq<real>): (d: Matrix)
    requires |l| == n * n && |g| == nTheta * (n * n) && |h| == (nTheta * nTheta) * (n * n)
    ensures IsMatrix(d, (nTheta * nTheta) * n, n)
  {
    var grid := Derivative2Grid(n, nTheta, l, g, h);
    GridShape(grid, nTheta, n);
    Concat(Concat(grid))
  }

  lemma GridShape(grid: seq<seq<Matrix>>, m: nat, n: nat)
    requires |grid| == m && Uniform(grid, m)
    requires forall i, j :: 0 <= i < m && 0 <= j < m ==> IsMatrix(grid[i][j], n, n)
    ensures |Concat(grid)| == m * m
    ensures forall b :: 0 <= b < |Concat(grid)| ==> IsMatrix(Concat(grid)[b], n, n)
    ensures IsMatrix(Concat(Concat(grid)), (m * m) * n, n)
  {
    ConcatLength(grid, m);
    var flat := Concat(grid);
    forall b | 0 <= b < |flat|
      ensures IsMatrix(flat[b], n, n)
    {
      GridAt(grid, m, b);
    }
    StackShape(flat, n);
  }

  /** Every position of the flattened grid is the position of some pair. */
  lemma GridAt<T>(grid: seq<seq<T>>, m: nat, b: nat)
    requires |grid| == m && Uniform(grid, m) && b < m * m
    ensures |Concat(grid)| == m * m
    ensures exists i, j :: 0 <= i < m && 0 <= j < m && b == PairIndex(i, j, m) && Concat(grid)[b] == grid[i][j]
  {
    var i, j := b / m, b % m;
    assert b == i * m + j;
    if i >= m {
      BlockEnd(m - 1, i, m);
      assert false;
    }
    ConcatAt(grid, m, i, j);
    assert b == PairIndex(i, j, m);
  }

  /** Layout of `derivative1` (lines 78, 85): n_theta * n rows of n entries,
      block i at row offset i * n holding dSigma/dtheta_i, which is
      symmetric. */
  lemma Derivative1Layout(n: nat, nTheta: nat, l: seq<real>, g: seq<real>, i: nat)
    requires |l| == n * n && |g| == nTheta * (n * n) && i < nTheta
    ensures IsMatrix(Derivative1(n, nTheta, l, g), nTheta * n, n)
    ensures BlockAt(Derivative1(n, nTheta, l, g), nTheta, n, i)
         == SigmaD1Block(CholFactor(l, n), JacobianBlock(g, n, nTheta, i), n)
    ensures Symmetric(BlockAt(Derivative1(n, nTheta, l, g), nTheta, n, i))
  {
    ConcatBlock(Derivative1Blocks(n, nTheta, l, g), n, i);
    SigmaD1ProductRule(CholFactor(l, n), JacobianBlock(g, n, nTheta, i), n);
  }

  /** Layout of `derivative2` (lines 79, 91): n_theta^2 * n rows of n
      entries, block (i, j) at row offset (i * n_theta + j) * n holding
      d2Sigma/dtheta_i dtheta_j, which is symmetric. */
  lemma Derivative2Layout(n: nat, nTheta: nat, l: seq<real>, g: seq<real>, h: seq<real>, i: nat, j: nat)
    requires |l| == n * n && |g| == nTheta * (n * n) && |h| == (nTheta * nTheta) * (n * n)
    requires i < nTheta && j < nTheta
    ensures IsMatrix(Derivative2(n, nTheta, l, g, h), (nTheta * nTheta) * n, n)
    ensures BlockAt(Derivative2(n, nTheta, l, g, h), nTheta * nTheta, n, PairIndex(i, j, nTheta))
         == SigmaD2Block(CholFactor(l, n), JacobianBlock(g, n, nTheta, i), JacobianBlock(g, n, nTheta, j),
                         HessianBlock(h, n, nTheta, i, j), n)
    ensures Symmetric(BlockAt(Derivative2(n, nTheta, l, g, h), nTheta * nTheta, n, PairIndex(i, j, nTheta)))
  {
    var grid := Derivative2Grid(n, nTheta, l, g, h);
    GridShape(grid, nTheta, n);
    ConcatAt(grid, nTheta, i, j);
    ConcatBlock(Concat(grid), n, PairIndex(i, j, nTheta));
    SigmaD2Symmetric(CholFactor(l, n), JacobianBlock(g, n, nTheta, i), JacobianBlock(g, n, nTheta, j),
                     HessianBlock(h, n, nTheta, i, j), n);
  }

  /** Blocks (i, j) and (j, i) of `derivative2` agree whenever the engine's
      second derivatives of L do (equality of mixed partials). */
  lemma Derivative2Exchange(n: nat, nTheta: nat, l: seq<real>, g: seq<real>, h: seq<real>, i: nat, j: nat)
    requires |l| == n * n && |g| == nTheta * (n * n) && |h| == (nTheta * nTheta) * (n * n)
    requires i < nTheta && j < nTheta
    requires HessianBlock(h, n, nTheta, i, j) == HessianBlock(h, n, nTheta, j, i)
    ensures BlockAt(Derivative2(n, nTheta, l, g, h), nTheta * nTheta, n, PairIndex(i, j, nTheta))
         == BlockAt(Derivative2(n, nTheta, l, g, h), nTheta * nTheta, n, PairIndex(j, i, nTheta))
  {
    Derivative2Layout(n, nTheta, l, g, h, i, j);
    Derivative2Layout(n, nTheta, l, g, h, j, i);
    SigmaD2Exchange(CholFactor(l, n), JacobianBlock(g, n, nTheta, i), JacobianBlock(g, n, nTheta, j),
                    HessianBlock(h, n, nTheta, i, j), n);
  }

  /** Lines 86-92 for one i: appends blocks (i, 0) .. (i, n_theta - 1) of
      the second derivative. */
  method AppendSecondDerivativeRow(derivative2: Matrix, n: nat, nTheta: nat, l: seq<real>, g: seq<real>,
                                   h: seq<real>, chol: Matrix, i: nat)
    returns (extended: Matrix)
    requires |l| == n * n && |g| == nTheta * (n * n) && |h| == (nTheta * nTheta) * (n * n)
    requires chol == CholFactor(l, n) && i < nTheta
    ensures extended == derivative2 + Concat(Derivative2Grid(n, nTheta, l, g, h)[i])
  {
    ghost var row := Derivative2Grid(n, nTheta, l, g, h)[i];
    var d1 := JacobianBlock(g, n, nTheta, i);
    extended := derivative2;
    var j := 0;
    while j < nTheta
      invariant 0 <= j <= nTheta
      invariant extended == derivative2 + Concat(row[..j])
    {
      var d2 := HessianBlock(h, n, nTheta, i, j);
      var d1j := JacobianBlock(g, n, nTheta, j);
      var block := SigmaD2Block(chol, d1, d1j, d2, n);
      assert block == row[j];
      AppendNextBlock(derivative2, row, j);
      extended := extended + block;
      j := j + 1;
    }
    assert row[..nTheta] == row;
  }

  /** `derivatives` (lines 67-97): reads L, then for every parameter i fills
      block i of derivative1 and, for every j, block (i, j) of derivative2. */
  method Derivatives(n: nat, nTheta: nat, l: seq<real>, g: seq<real>, h: seq<real>)
    returns (chol: Matrix, derivative1: Matrix, derivative2: Matrix)
    requires |l| == n * n && |g| == nTheta * (n * n) && |h| == (nTheta * nTheta) * (n * n)
    ensures chol == CholFactor(l, n)
    ensures derivative1 == Derivative1(n, nTheta, l, g)
    ensures derivative2 == Derivative2(n, nTheta, l, g, h)
  {
    chol := CholFactor(l, n);
    ghost var blocks := Derivative1Blocks(n, nTheta, l, g);
    ghost var grid := Derivative2Grid(n, nTheta, l, g, h);
    derivative1 := [];
    derivative2 := [];
    var i := 0;
    while i < nTheta
      invariant 0 <= i <= nTheta
      invariant derivative1 == Concat(blocks[..i])
      invariant derivative2 == Concat(Concat(grid[..i]))
    {
      var d1 := JacobianBlock(g, n, nTheta, i);
      ConcatPrefixStep(blocks, i);
      derivative1 := derivative1 + SigmaD1Block(chol, d1, n);
      GridRowDone(grid, i);
      assert grid[i][..|grid[i]|] == grid[i];
      ConcatAppend(Concat(grid[..i]), grid[i]);
      derivative2 := AppendSecondDerivativeRow(derivative2, n, nTheta, l, g, h, chol, i);
      i := i + 1;
    }
    assert blocks[..nTheta] == blocks;
    assert grid[..nTheta] == grid;
  }
}

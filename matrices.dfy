/** Dense real matrices stored as sequences of rows, and the block bookkeeping
    that the stacked derivative matrices, the pattern cache and the accumulators
    share: a tall matrix made of equal-height blocks is the concatenation of
    those blocks, and block k starts at row k * height. */
module Matrices {

  type Matrix = seq<seq<real>>

  /** m has exactly `rows` rows, each of `cols` entries. */
  predicate IsMatrix(m: Matrix, rows: nat, cols: nat) {
    |m| == rows && forall i :: 0 <= i < rows ==> |m[i]| == cols
  }

  /** Every row of a has the same length as every row of b. */
  predicate SameWidth(a: Matrix, b: Matrix) {
    forall i, j :: 0 <= i < |a| && 0 <= j < |b| ==> |a[i]| == |b[j]|
  }

  predicate Symmetric(m: Matrix)
    requires IsMatrix(m, |m|, |m|)
  {
    forall i, j :: 0 <= i < |m| && 0 <= j < |m| ==> m[i][j] == m[j][i]
  }

  function Zero(rows: nat, cols: nat): (z: Matrix)
    ensures IsMatrix(z, rows, cols)
  {
    seq(rows, i => seq(cols, j => 0.0))
  }

  /** Inner product of two rows of equal length. */
  function Dot(u: seq<real>, v: seq<real>): real
    requires |u| == |v|
    decreases |u|
  {
    if |u| == 0 then 0.0 else Dot(u[..|u| - 1], v[..|v| - 1]) + u[|u| - 1] * v[|v| - 1]
  }

  lemma {:induction false} DotSymmetric(u: seq<real>, v: seq<real>)
    requires |u| == |v|
    ensures Dot(u, v) == Dot(v, u)
    decreases |u|
  {
    if |u| > 0 {
      DotSymmetric(u[..|u| - 1], v[..|v| - 1]);
    }
  }

  /** Column j of m. */
  function Col(m: Matrix, j: nat): (c: seq<real>)
    requires forall i :: 0 <= i < |m| ==> j < |m[i]|
    ensures |c| == |m|
  {
    seq(|m|, i requires 0 <= i < |m| => m[i][j])
  }

  /** The transpose of an |m| x cols matrix (cols is explicit, since a matrix
      without rows does not record its width). */
  function Transpose(m: Matrix, cols: nat): (t: Matrix)
    requires IsMatrix(m, |m|, cols)
    ensures IsMatrix(t, cols, |m|)
  {
    seq(cols, j requires 0 <= j < cols => seq(|m|, i requires 0 <= i < |m| => m[i][j]))
  }

  /** The product a * b, where b has `cols` columns. */
  function Mul(a: Matrix, b: Matrix, cols: nat): (p: Matrix)
    requires IsMatrix(b, |b|, cols)
    requires forall i :: 0 <= i < |a| ==> |a[i]| == |b|
    ensures IsMatrix(p, |a|, cols)
  {
    seq(|a|, i requires 0 <= i < |a| =>
      seq(cols, j requires 0 <= j < cols => Dot(a[i], Col(b, j))))
  }

  /** The product a * b^t of two matrices of equal width ("tcrossprod"). */
  function MulT(a: Matrix, b: Matrix): (p: Matrix)
    requires SameWidth(a, b)
    ensures IsMatrix(p, |a|, |b|)
  {
    seq(|a|, i requires 0 <= i < |a| =>
      seq(|b|, j requires 0 <= j < |b| => Dot(a[i], b[j])))
  }

  function Add(a: Matrix, b: Matrix): (s: Matrix)
    requires |a| == |b| && forall i :: 0 <= i < |a| ==> |a[i]| == |b[i]|
    ensures |s| == |a| && forall i :: 0 <= i < |a| ==> |s[i]| == |a[i]|
  {
    seq(|a|, i requires 0 <= i < |a| =>
      seq(|a[i]|, j requires 0 <= j < |a[i]| => a[i][j] + b[i][j]))
  }

  function Scale(c: real, a: Matrix): (s: Matrix)
    ensures |s| == |a| && forall i :: 0 <= i < |a| ==> |s[i]| == |a[i]|
  {
    seq(|a|, i requires 0 <= i < |a| =>
      seq(|a[i]|, j requires 0 <= j < |a[i]| => c * a[i][j]))
  }

  /** Transposing a * b^t gives b * a^t. */
  lemma TransposeMulT(a: Matrix, b: Matrix)
    requires SameWidth(a, b)
    ensures Transpose(MulT(a, b), |b|) == MulT(b, a)
  {
    var t, p := Transpose(MulT(a, b), |b|), MulT(b, a);
    forall i | 0 <= i < |b|
      ensures t[i] == p[i]
    {
      forall j | 0 <= j < |a|
        ensures t[i][j] == p[i][j]
      {
        DotSymmetric(a[j], b[i]);
      }
    }
  }

  // ---------------------------------------------------------------------
  // Stacking equal-height blocks
  // ---------------------------------------------------------------------

  /** The blocks of bs, one after the other. On a sequence of matrices this
      stacks them vertically; on a sequence of vectors it concatenates them. */
  function Concat<T>(bs: seq<seq<T>>): seq<T>
    decreases |bs|
  {
    if |bs| == 0 then [] else Concat(bs[..|bs| - 1]) + bs[|bs| - 1]
  }

  /** Stacking one more block appends it. */
  lemma ConcatSnoc<T>(bs: seq<seq<T>>, b: seq<T>)
    ensures Concat(bs + [b]) == Concat(bs) + b
  {
    assert (bs + [b])[..|bs|] == bs;
  }

  /** Flattening one more block of a prefix. */
  lemma ConcatPrefixStep<T>(bs: seq<seq<T>>, j: nat)
    requires j < |bs|
    ensures Concat(bs[..j + 1]) == Concat(bs[..j]) + bs[j]
  {
    assert bs[..j + 1] == bs[..j] + [bs[j]];
    ConcatSnoc(bs[..j], bs[j]);
  }

  /** Appending block j to a stack that ends in blocks 0 .. j - 1 gives a
      stack that ends in blocks 0 .. j. */
  lemma AppendNextBlock<T>(prefix: seq<T>, bs: seq<seq<T>>, j: nat)
    requires j < |bs|
    ensures (prefix + Concat(bs[..j])) + bs[j] == prefix + Concat(bs[..j + 1])
  {
    ConcatPrefixStep(bs, j);
    assert (prefix + Concat(bs[..j])) + bs[j] == prefix + (Concat(bs[..j]) + bs[j]);
  }

  /** Flattening distributes over appending. */
  lemma {:induction false} ConcatAppend<T>(a: seq<seq<T>>, b: seq<seq<T>>)
    ensures Concat(a + b) == Concat(a) + Concat(b)
    decreases |b|
  {
    if b == [] {
      assert a + b == a;
    } else {
      var b', x := b[..|b| - 1], b[|b| - 1];
      assert b == b' + [x];
      assert a + b == (a + b') + [x];
      ConcatSnoc(a + b', x);
      ConcatAppend(a, b');
      ConcatSnoc(b', x);
    }
  }

  /** Row i of a grid being flattened row by row is complete. */
  lemma GridRowDone<T>(grid: seq<seq<T>>, i: nat)
    requires i < |grid|
    ensures Concat(grid[..i + 1]) == Concat(grid[..i]) + grid[i][..|grid[i]|]
    ensures Concat(grid[..i]) + grid[i][..0] == Concat(grid[..i])
  {
    assert grid[..i + 1] == grid[..i] + [grid[i]];
    ConcatSnoc(grid[..i], grid[i]);
    assert grid[i][..|grid[i]|] == grid[i];
  }

  /** All blocks of bs have length h. */
  predicate Uniform<T>(bs: seq<seq<T>>, h: nat) {
    forall k :: 0 <= k < |bs| ==> |bs[k]| == h
  }

  lemma BlockEnd(k: nat, count: nat, h: nat)
    requires k < count
    ensures k * h + h <= count * h
  {
    assert count * h == k * h + (count - k) * h;
    assert (count - k) * h == h + (count - k - 1) * h;
  }

  /** Block k (of height h) of a sequence made of `count` such blocks. */
  function BlockAt<T>(s: seq<T>, count: nat, h: nat, k: nat): (b: seq<T>)
    requires |s| == count * h && k < count
    ensures |b| == h
    ensures k * h + h <= |s| && forall t :: 0 <= t < h ==> b[t] == s[k * h + t]
  {
    BlockEnd(k, count, h);
    s[k * h .. k * h + h]
  }

  /** Block k of a stack of height-h rows, each `cols` wide, is h x cols. */
  lemma BlockShape(s: Matrix, count: nat, h: nat, cols: nat, k: nat)
    requires IsMatrix(s, count * h, cols) && k < count
    ensures IsMatrix(BlockAt(s, count, h, k), h, cols)
  {
    var b := BlockAt(s, count, h, k);
    forall t | 0 <= t < h
      ensures |b[t]| == cols
    {
      assert b[t] == s[k * h + t];
    }
  }

  /** s cut into `count` consecutive blocks of length h. */
  function Chunks<T>(s: seq<T>, count: nat, h: nat): (cs: seq<seq<T>>)
    requires |s| == count * h
    ensures |cs| == count && Uniform(cs, h)
  {
    seq(count, k requires 0 <= k < count => BlockAt(s, count, h, k))
  }

  lemma {:induction false} ConcatLength<T>(bs: seq<seq<T>>, h: nat)
    requires Uniform(bs, h)
    ensures |Concat(bs)| == |bs| * h
    decreases |bs|
  {
    if |bs| > 0 {
      ConcatLength(bs[..|bs| - 1], h);
    }
  }

  /** Stacking blocks of height h puts block k at offset k * h, and nothing
      else there. */
  lemma {:induction false} ConcatBlock<T>(bs: seq<seq<T>>, h: nat, k: nat)
    requires Uniform(bs, h) && k < |bs|
    ensures |Concat(bs)| == |bs| * h
    ensures BlockAt(Concat(bs), |bs|, h, k) == bs[k]
    decreases |bs|
  {
    var n := |bs|;
    var front := bs[..n - 1];
    ConcatLength(front, h);
    ConcatLength(bs, h);
    assert Concat(bs) == Concat(front) + bs[n - 1];
    if k == n - 1 {
      assert k * h == |Concat(front)|;
    } else {
      ConcatBlock(front, h, k);
      BlockEnd(k, n - 1, h);
      assert BlockAt(Concat(front), n - 1, h, k) == bs[k];
      assert Concat(bs)[k * h .. k * h + h] == Concat(front)[k * h .. k * h + h];
    }
  }

  /** Entry t of block k of a stack of height-h blocks. */
  lemma ConcatAt<T>(bs: seq<seq<T>>, h: nat, k: nat, t: nat)
    requires Uniform(bs, h) && k < |bs| && t < h
    ensures |Concat(bs)| == |bs| * h && k * h + t < |Concat(bs)|
    ensures Concat(bs)[k * h + t] == bs[k][t]
  {
    // Only block k matters here, not how the stack was built.
    hide Concat;
    ConcatBlock(bs, h, k);
    var b := BlockAt(Concat(bs), |bs|, h, k);
    assert b[t] == Concat(bs)[k * h + t];
  }

  /** Cutting a stack back into its blocks gives the blocks. */
  lemma ChunksOfConcat<T>(bs: seq<seq<T>>, h: nat)
    requires Uniform(bs, h)
    ensures |Concat(bs)| == |bs| * h
    ensures Chunks(Concat(bs), |bs|, h) == bs
  {
    ConcatLength(bs, h);
    var cs := Chunks(Concat(bs), |bs|, h);
    forall k | 0 <= k < |bs|
      ensures cs[k] == bs[k]
    {
      ConcatBlock(bs, h, k);
    }
  }

  /** Stacking the blocks of s gives s back. */
  lemma ConcatOfChunks<T>(s: seq<T>, count: nat, h: nat)
    requires |s| == count * h
    ensures Concat(Chunks(s, count, h)) == s
  {
    var cs := Chunks(s, count, h);
    ConcatPrefixOfChunks(s, count, h, count);
    assert cs[..count] == cs;
  }

  lemma {:induction false} ConcatPrefixOfChunks<T>(s: seq<T>, count: nat, h: nat, c: nat)
    requires |s| == count * h && c <= count
    ensures c * h <= |s|
    ensures Concat(Chunks(s, count, h)[..c]) == s[..c * h]
    decreases c
  {
    var cs := Chunks(s, count, h);
    if c == 0 {
      assert cs[..0] == [];
    } else {
      ConcatPrefixOfChunks(s, count, h, c - 1);
      BlockEnd(c - 1, count, h);
      assert cs[..c][..c - 1] == cs[..c - 1];
      assert (c - 1) * h + h == c * h;
      assert cs[c - 1] == s[(c - 1) * h .. c * h];
      assert s[..c * h] == s[..(c - 1) * h] + s[(c - 1) * h .. c * h];
    }
  }

  /** Stacking `|blocks|` square blocks of size h gives a |blocks| * h by h matrix. */
  lemma StackShape(blocks: seq<Matrix>, h: nat)
    requires forall k :: 0 <= k < |blocks| ==> IsMatrix(blocks[k], h, h)
    ensures IsMatrix(Concat(blocks), |blocks| * h, h)
  {
    ConcatLength(blocks, h);
    ConcatWidth(blocks, h);
  }

  lemma {:induction false} ConcatWidth(blocks: seq<Matrix>, w: nat)
    requires forall k, t :: 0 <= k < |blocks| && 0 <= t < |blocks[k]| ==> |blocks[k][t]| == w
    ensures forall t :: 0 <= t < |Concat(blocks)| ==> |Concat(blocks)[t]| == w
    decreases |blocks|
  {
    if |blocks| > 0 {
      ConcatWidth(blocks[..|blocks| - 1], w);
    }
  }

  // ---------------------------------------------------------------------
  // Block indices of a parameter pair
  // ---------------------------------------------------------------------

  /** The position of the parameter pair (i, j) when the m * m pairs are
      enumerated i-major: i * m + j. */
  function PairIndex(i: nat, j: nat, m: nat): (b: nat)
    requires i < m && j < m
    ensures b < m * m
  {
    BlockEnd(i, m, m);
    i * m + j
  }

  /** Distinct parameter pairs have distinct positions. */
  lemma PairIndexInjective(i: nat, j: nat, i': nat, j': nat, m: nat)
    requires i < m && j < m && i' < m && j' < m
    requires i != i' || j != j'
    ensures PairIndex(i, j, m) != PairIndex(i', j', m)
  {
    if i < i' {
      BlockEnd(i, i', m);
    } else if i' < i {
      BlockEnd(i', i, m);
    }
  }

  /** Distinct block positions of height h occupy disjoint row ranges. */
  lemma BlockRowsDisjoint(k: nat, k': nat, h: nat)
    requires k != k'
    ensures k * h + h <= k' * h || k' * h + h <= k * h
  {
    if k < k' {
      BlockEnd(k, k', h);
    } else {
      BlockEnd(k', k, h);
    }
  }

  /** Distinct parameter pairs (i, j) and (i', j') own disjoint blocks of
      height h in a stack laid out i-major: the block of (i, j) starts at
      row (i * m + j) * h. */
  lemma {:induction false} PairBlocksDisjoint(i: nat, j: nat, i': nat, j': nat, m: nat, h: nat)
    requires i < m && j < m && i' < m && j' < m
    requires i != i' || j != j'
    ensures PairIndex(i, j, m) != PairIndex(i', j', m)
    ensures PairIndex(i, j, m) * h + h <= PairIndex(i', j', m) * h
         || PairIndex(i', j', m) * h + h <= PairIndex(i, j, m) * h
  {
    PairIndexInjective(i, j, i', j', m);
    BlockRowsDisjoint(PairIndex(i, j, m), PairIndex(i', j', m), h);
  }
}

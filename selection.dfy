/** Visit patterns and the selection operator of the pattern cache. A visit
    pattern lists the visits (indices into 0 .. n_visits - 1) that one
    subject was observed at; S is the |pattern| x n_visits 0/1 matrix with a
    single 1 per row, at column pattern[row]. S * M * S^t is the principal
    sub-block of M at the pattern, and S * M is the rows of M at the pattern.
    Both are modelled directly as index functions (Restrict, SelectRows) and
    proved equal to the matrix products with the explicit SelectMatrix. */
module Selection {
  import opened Matrices

  /** Every index of the pattern names one of the visits 0 .. n - 1. */
  predicate ValidPattern(visits: seq<int>, n: nat) {
    forall a :: 0 <= a < |visits| ==> 0 <= visits[a] < n
  }

  /** The full visit pattern 0, 1, ..., n - 1, the key of the entries that
      every other entry is restricted from. */
  function FullVisit(n: nat): (v: seq<int>)
    ensures |v| == n && ValidPattern(v, n)
  {
    seq(n, i requires 0 <= i < n => i)
  }

  /** S * M * S^t for the selection matrix S of `visits`. */
  function Restrict(m: Matrix, visits: seq<int>): (r: Matrix)
    requires IsMatrix(m, |m|, |m|) && ValidPattern(visits, |m|)
    ensures IsMatrix(r, |visits|, |visits|)
  {
    seq(|visits|, a requires 0 <= a < |visits| =>
      seq(|visits|, b requires 0 <= b < |visits| => m[visits[a]][visits[b]]))
  }

  /** S * M for the selection matrix S of `visits`: the rows of m at the
      pattern, in pattern order. */
  function SelectRows(m: Matrix, visits: seq<int>): (r: Matrix)
    requires ValidPattern(visits, |m|)
    ensures |r| == |visits|
    ensures forall a :: 0 <= a < |visits| ==> r[a] == m[visits[a]]
  {
    seq(|visits|, a requires 0 <= a < |visits| => m[visits[a]])
  }

  /** The selection matrix itself: |visits| rows of n entries, row a holding
      a single 1 at column visits[a]. */
  function SelectMatrix(visits: seq<int>, n: nat): (s: Matrix)
    ensures IsMatrix(s, |visits|, n)
  {
    seq(|visits|, a requires 0 <= a < |visits| =>
      seq(n, c requires 0 <= c < n => if c == visits[a] then 1.0 else 0.0))
  }

  /** A row with a single 1 at position k picks entry k of the other row. */
  lemma {:induction false} DotUnit(e: seq<real>, u: seq<real>, k: int)
    requires |e| == |u| && 0 <= k < |u|
    requires forall c :: 0 <= c < |e| ==> e[c] == if c == k then 1.0 else 0.0
    ensures Dot(e, u) == u[k]
    decreases |u|
  {
    var n := |u|;
    if k == n - 1 {
      ZeroDot(e[..n - 1], u[..n - 1]);
    } else {
      DotUnit(e[..n - 1], u[..n - 1], k);
    }
  }

  lemma {:induction false} ZeroDot(e: seq<real>, u: seq<real>)
    requires |e| == |u|
    requires forall c :: 0 <= c < |e| ==> e[c] == 0.0
    ensures Dot(e, u) == 0.0
    decreases |u|
  {
    if |u| > 0 {
      ZeroDot(e[..|e| - 1], u[..|u| - 1]);
    }
  }

  /** S * M, computed as a matrix product, is the rows of M at the pattern. */
  lemma SelectMatrixPicksRows(visits: seq<int>, m: Matrix, cols: nat)
    requires IsMatrix(m, |m|, cols) && ValidPattern(visits, |m|)
    ensures Mul(SelectMatrix(visits, |m|), m, cols) == SelectRows(m, visits)
  {
    var s := SelectMatrix(visits, |m|);
    var p := Mul(s, m, cols);
    forall a | 0 <= a < |visits|
      ensures p[a] == m[visits[a]]
    {
      forall c | 0 <= c < cols
        ensures p[a][c] == m[visits[a]][c]
      {
        DotUnit(s[a], Col(m, c), visits[a]);
      }
    }
  }

  /** S * M * S^t, computed with the explicit selection matrix, is the
      principal sub-block that Restrict reads off by index. */
  lemma SelectionIsRestriction(visits: seq<int>, m: Matrix)
    requires IsMatrix(m, |m|, |m|) && ValidPattern(visits, |m|)
    ensures Mul(Mul(SelectMatrix(visits, |m|), m, |m|), Transpose(SelectMatrix(visits, |m|), |m|), |visits|)
         == Restrict(m, visits)
  {
    var n := |m|;
    var s := SelectMatrix(visits, n);
    SelectMatrixPicksRows(visits, m, n);
    var sm := Mul(s, m, n);
    var st := Transpose(s, n);
    var p := Mul(sm, st, |visits|);
    var r := Restrict(m, visits);
    forall a | 0 <= a < |visits|
      ensures p[a] == r[a]
    {
      forall b | 0 <= b < |visits|
        ensures p[a][b] == r[a][b]
      {
        assert Col(st, b) == s[b];
        DotSymmetric(m[visits[a]], s[b]);
        DotUnit(s[b], m[visits[a]], visits[b]);
      }
    }
  }

  /** Selecting the full pattern is the identity. */
  lemma RestrictFull(m: Matrix)
    requires IsMatrix(m, |m|, |m|)
    ensures Restrict(m, FullVisit(|m|)) == m
  {
    var r := Restrict(m, FullVisit(|m|));
    forall a | 0 <= a < |m|
      ensures r[a] == m[a]
    {
    }
  }

  /** The principal sub-block of a symmetric matrix is symmetric. */
  lemma RestrictSymmetric(m: Matrix, visits: seq<int>)
    requires IsMatrix(m, |m|, |m|) && ValidPattern(visits, |m|) && Symmetric(m)
    ensures Symmetric(Restrict(m, visits))
  {
  }

  /** (S * L) * (S * L)^t = S * (L * L^t) * S^t: the covariance of a pattern
      can be formed from the selected rows of the full factor. */
  lemma RestrictOfCrossProduct(l: Matrix, visits: seq<int>)
    requires IsMatrix(l, |l|, |l|) && ValidPattern(visits, |l|)
    ensures SameWidth(SelectRows(l, visits), SelectRows(l, visits))
    ensures MulT(SelectRows(l, visits), SelectRows(l, visits)) == Restrict(MulT(l, l), visits)
  {
    var sl := SelectRows(l, visits);
    var p, r := MulT(sl, sl), Restrict(MulT(l, l), visits);
    forall a | 0 <= a < |visits|
      ensures p[a] == r[a]
    {
    }
  }

  /** The stacked matrix of `count` blocks of size n x n, each restricted to
      the pattern: count blocks of size |visits| x |visits|. */
  function RestrictBlocks(d: Matrix, n: nat, count: nat, visits: seq<int>): (r: Matrix)
    requires IsMatrix(d, count * n, n) && ValidPattern(visits, n)
    ensures IsMatrix(r, count * |visits|, |visits|)
  {
    var blocks := seq(count, k requires 0 <= k < count => Restrict(BlockAt(d, count, n, k), visits));
    StackShape(blocks, |visits|);
    Concat(blocks)
  }

  /** Block k of the restricted stack is the principal sub-block of full
      block k at the pattern, kept in pattern order. */
  lemma RestrictBlocksLayout(d: Matrix, n: nat, count: nat, visits: seq<int>, k: nat)
    requires IsMatrix(d, count * n, n) && ValidPattern(visits, n) && k < count
    ensures IsMatrix(RestrictBlocks(d, n, count, visits), count * |visits|, |visits|)
    ensures BlockAt(RestrictBlocks(d, n, count, visits), count, |visits|, k)
         == Restrict(BlockAt(d, count, n, k), visits)
  {
    var blocks := seq(count, k requires 0 <= k < count => Restrict(BlockAt(d, count, n, k), visits));
    ConcatBlock(blocks, |visits|, k);
  }

  /** Restricting every block to the full pattern gives the stack back. */
  lemma RestrictBlocksFull(d: Matrix, n: nat, count: nat)
    requires IsMatrix(d, count * n, n)
    ensures RestrictBlocks(d, n, count, FullVisit(n)) == d
  {
    var blocks := seq(count, k requires 0 <= k < count => Restrict(BlockAt(d, count, n, k), FullVisit(n)));
    forall k | 0 <= k < count
      ensures blocks[k] == Chunks(d, count, n)[k]
    {
      RestrictFull(BlockAt(d, count, n, k));
    }
    assert blocks == Chunks(d, count, n);
    ConcatOfChunks(d, count, n);
  }
}

/** The pattern cache (`struct chols`, src/chol_derivative.cpp:99-181): four
    maps keyed by visit patterns, holding for each pattern already seen the
    restricted covariance, its inverse, and the restricted first- and
    second-derivative stacks. The full pattern 0 .. n_visits - 1 is seeded at
    construction; every other entry is computed on its first lookup by
    restriction from the full one and never changes afterwards.

    Divergences from the code as written, each modelled by its evident intent:
      - lines 112-115 fill `full_visit` before it is sized, loop to n_theta
        and read n_theta before it is set: here full_visit is 0 .. n_visits - 1;
      - line 122 is overwritten by line 123, and lines 123-124 multiply the
        already assembled derivative stacks by L^t again: here the stacks of
        `derivatives` are stored as they are;
      - line 125 stores L as the inverse and `sigma_cache` is never seeded:
        here the full entries are Sigma^-1 and Sigma = L * L^t;
      - lines 135, 149 and 161 restrict `cache[visits]`, the key that was
        just found missing: here they restrict `cache[full_visit]`;
      - lines 147-149 restrict only n_theta second-derivative blocks: here
        all n_theta^2;
      - line 171 reads `chol_cache`, which does not exist: here it reads the
        factor L of the full pattern (`full.chol`). */
module PatternCache {
  import opened Matrices
  import opened Selection
  import opened DerivativeAssembly

  datatype Error = PatternOutOfRange(visits: seq<int>)

  /** The patterns held by each of the cache's four maps. */
  datatype KeySets = KeySets(inverse: set<seq<int>>, sigmad1: set<seq<int>>,
                             sigmad2: set<seq<int>>, sigma: set<seq<int>>)
  {
    /** Every map still holds every pattern it held here. */
    predicate Within(later: KeySets) {
      inverse <= later.inverse && sigmad1 <= later.sigmad1
      && sigmad2 <= later.sigmad2 && sigma <= later.sigma
    }
  }

  datatype Result<T> = Success(value: T) | Failure(error: Error) {
    predicate IsFailure() {
      Failure?
    }

    function PropagateFailure<U>(): Result<U>
      requires Failure?
    {
      Failure(error)
    }

    function Extract(): T
      requires Success?
    {
      value
    }
  }

  /** The inverse of a covariance (an LLT factorisation and triangular solve
      in the source) is a parameter of the model; all the model relies on is
      that it maps a square matrix to one of the same size. */
  ghost predicate KeepsShape(inverse: Matrix -> Matrix) {
    forall m: Matrix {:trigger inverse(m)} :: IsMatrix(m, |m|, |m|) ==> IsMatrix(inverse(m), |m|, |m|)
  }

  /** What the constructor computes for the full pattern, and from which
      every entry of every pattern is derived. */
  datatype FullPattern = FullPattern(n: nat, nTheta: nat, chol: Matrix, derivative1: Matrix,
                                     derivative2: Matrix, inverse: Matrix -> Matrix)
  {
    ghost predicate Valid() {
      && IsMatrix(chol, n, n)
      && IsMatrix(derivative1, nTheta * n, n)
      && IsMatrix(derivative2, (nTheta * nTheta) * n, n)
      && KeepsShape(inverse)
    }

    /** Sigma = L * L^t. */
    function Sigma(): (s: Matrix)
      requires Valid()
      ensures IsMatrix(s, n, n)
    {
      MulT(chol, chol)
    }

    /** The covariance of a pattern. */
    function SigmaAt(visits: seq<int>): (s: Matrix)
      requires Valid() && ValidPattern(visits, n)
      ensures IsMatrix(s, |visits|, |visits|)
    {
      Restrict(Sigma(), visits)
    }

    /** The first-derivative stack of a pattern. */
    function SigmaD1At(visits: seq<int>): (s: Matrix)
      requires Valid() && ValidPattern(visits, n)
      ensures IsMatrix(s, nTheta * |visits|, |visits|)
    {
      RestrictBlocks(derivative1, n, nTheta, visits)
    }

    /** The second-derivative stack of a pattern. */
    function SigmaD2At(visits: seq<int>): (s: Matrix)
      requires Valid() && ValidPattern(visits, n)
      ensures IsMatrix(s, (nTheta * nTheta) * |visits|, |visits|)
    {
      RestrictBlocks(derivative2, n, nTheta * nTheta, visits)
    }

    /** The inverse covariance of a pattern. */
    function InverseAt(visits: seq<int>): (s: Matrix)
      requires Valid() && ValidPattern(visits, n)
      ensures IsMatrix(s, |visits|, |visits|)
    {
      inverse(SigmaAt(visits))
    }
  }

  /** The full-pattern data built from the differentiation engine's outputs. */
  function Assemble(n: nat, nTheta: nat, l: seq<real>, g: seq<real>, h: seq<real>,
                    inverse: Matrix -> Matrix): (f: FullPattern)
    requires |l| == n * n && |g| == nTheta * (n * n) && |h| == (nTheta * nTheta) * (n * n)
    requires KeepsShape(inverse)
    ensures f.Valid() && f.n == n && f.nTheta == nTheta
  {
    FullPattern(n, nTheta, CholFactor(l, n), Derivative1(n, nTheta, l, g), Derivative2(n, nTheta, l, g, h), inverse)
  }

  /** The full visit pattern, built as the constructor's loop intends
      (lines 112-114). */
  method MakeFullVisit(n: nat) returns (v: seq<int>)
    ensures |v| == n && forall i :: 0 <= i < n ==> v[i] == i
  {
    v := [];
    var i := 0;
    while i < n
      invariant 0 <= i <= n
      invariant |v| == i && forall k :: 0 <= k < i ==> v[k] == k
    {
      v := v + [i];
      i := i + 1;
    }
  }

  /** The invariant of the four maps of a pattern cache built for f. */
  ghost predicate CachesHold(f: FullPattern, fullVisit: seq<int>, inverseCache: map<seq<int>, Matrix>,
                             sigmad1Cache: map<seq<int>, Matrix>, sigmad2Cache: map<seq<int>, Matrix>,
                             sigmaCache: map<seq<int>, Matrix>) {
    && f.Valid()
    && fullVisit == FullVisit(f.n)
    && fullVisit in inverseCache && fullVisit in sigmad1Cache
    && fullVisit in sigmad2Cache && fullVisit in sigmaCache
    && (forall k :: k in sigmaCache ==> ValidPattern(k, f.n) && sigmaCache[k] == f.SigmaAt(k))
    && (forall k :: k in sigmad1Cache ==> ValidPattern(k, f.n) && sigmad1Cache[k] == f.SigmaD1At(k))
    && (forall k :: k in sigmad2Cache ==> ValidPattern(k, f.n) && sigmad2Cache[k] == f.SigmaD2At(k))
    && (forall k :: k in inverseCache ==> ValidPattern(k, f.n) && inverseCache[k] == f.InverseAt(k))
  }

  /** The maps seeded with the full pattern alone satisfy the invariant. */
  lemma SeededCachesHold(f: FullPattern)
    requires f.Valid()
    ensures var fv := FullVisit(f.n);
            CachesHold(f, fv, map[fv := f.inverse(f.Sigma())], map[fv := f.derivative1],
                       map[fv := f.derivative2], map[fv := f.Sigma()])
  {
    RestrictFull(f.Sigma());
    RestrictBlocksFull(f.derivative1, f.n, f.nTheta);
    RestrictBlocksFull(f.derivative2, f.n, f.nTheta * f.nTheta);
  }

  /** Every block of a pattern's first-derivative stack is symmetric: the
      full block is (lines 80-84), and restricting it to the pattern's rows
      and columns (line 135) keeps the symmetry. */
  lemma PatternDerivative1Symmetric(n: nat, nTheta: nat, l: seq<real>, g: seq<real>, h: seq<real>,
                                    inverse: Matrix -> Matrix, visits: seq<int>, i: nat)
    requires |l| == n * n && |g| == nTheta * (n * n) && |h| == (nTheta * nTheta) * (n * n)
    requires KeepsShape(inverse) && ValidPattern(visits, n) && i < nTheta
    ensures var d1 := Assemble(n, nTheta, l, g, h, inverse).SigmaD1At(visits);
            IsMatrix(BlockAt(d1, nTheta, |visits|, i), |visits|, |visits|)
            && Symmetric(BlockAt(d1, nTheta, |visits|, i))
  {
    var f := Assemble(n, nTheta, l, g, h, inverse);
    Derivative1Layout(n, nTheta, l, g, i);
    RestrictBlocksLayout(f.derivative1, n, nTheta, visits, i);
    RestrictSymmetric(BlockAt(f.derivative1, nTheta, n, i), visits);
  }

  /** Every block of a pattern's second-derivative stack is symmetric: the
      full block (i, j) is (lines 86-92), and restricting it (line 149) keeps
      the symmetry. */
  lemma PatternDerivative2Symmetric(n: nat, nTheta: nat, l: seq<real>, g: seq<real>, h: seq<real>,
                                    inverse: Matrix -> Matrix, visits: seq<int>, i: nat, j: nat)
    requires |l| == n * n && |g| == nTheta * (n * n) && |h| == (nTheta * nTheta) * (n * n)
    requires KeepsShape(inverse) && ValidPattern(visits, n) && i < nTheta && j < nTheta
    ensures PairIndex(i, j, nTheta) < nTheta * nTheta
    ensures var d2 := Assemble(n, nTheta, l, g, h, inverse).SigmaD2At(visits);
            IsMatrix(BlockAt(d2, nTheta * nTheta, |visits|, PairIndex(i, j, nTheta)), |visits|, |visits|)
            && Symmetric(BlockAt(d2, nTheta * nTheta, |visits|, PairIndex(i, j, nTheta)))
  {
    var f := Assemble(n, nTheta, l, g, h, inverse);
    var k := PairIndex(i, j, nTheta);
    Derivative2Layout(n, nTheta, l, g, h, i, j);
    RestrictBlocksLayout(f.derivative2, n, nTheta * nTheta, visits, k);
    RestrictSymmetric(BlockAt(f.derivative2, nTheta * nTheta, n, k), visits);
  }

  /** Restricts each of the `count` blocks of a full stack to the pattern and
      stacks the results (the loops of lines 134-136 and 148-150). */
  method RestrictEach(d: Matrix, n: nat, count: nat, visits: seq<int>) returns (ret: Matrix)
    requires IsMatrix(d, count * n, n) && ValidPattern(visits, n)
    ensures ret == RestrictBlocks(d, n, count, visits)
  {
    ghost var blocks := seq(count, k requires 0 <= k < count => Restrict(BlockAt(d, count, n, k), visits));
    ret := [];
    var i := 0;
    while i < count
      invariant 0 <= i <= count
      invariant ret == Concat(blocks[..i])
    {
      ConcatPrefixStep(blocks, i);
      ret := ret + Restrict(BlockAt(d, count, n, i), visits);
      i := i + 1;
    }
    assert blocks[..count] == blocks;
  }

  class Chols {
    const full: FullPattern
    const fullVisit: seq<int>
    var inverseCache: map<seq<int>, Matrix>
    var sigmad1Cache: map<seq<int>, Matrix>
    var sigmad2Cache: map<seq<int>, Matrix>
    var sigmaCache: map<seq<int>, Matrix>

    /** The cache invariant: the full pattern is present in every map, and
        every entry holds what its pattern restricts to. */
    ghost predicate Valid()
      reads this
    {
      CachesHold(full, fullVisit, inverseCache, sigmad1Cache, sigmad2Cache, sigmaCache)
    }

    /** The patterns with an entry in each of the four maps. */
    ghost function Cached(): set<seq<int>>
      reads this
    {
      inverseCache.Keys * sigmad1Cache.Keys * sigmad2Cache.Keys * sigmaCache.Keys
    }

    /** The key sets of the four maps. */
    ghost function Keys(): KeySets
      reads this
    {
      KeySets(inverseCache.Keys, sigmad1Cache.Keys, sigmad2Cache.Keys, sigmaCache.Keys)
    }

    /** Lines 110-126: computes L and the derivative stacks once, and seeds
        each map with the full pattern alone. */
    constructor (nVisits: nat, nTheta: nat, l: seq<real>, g: seq<real>, h: seq<real>,
                 inverse: Matrix -> Matrix)
      requires |l| == nVisits * nVisits && |g| == nTheta * (nVisits * nVisits)
      requires |h| == (nTheta * nTheta) * (nVisits * nVisits)
      requires KeepsShape(inverse)
      ensures Valid()
      ensures full == Assemble(nVisits, nTheta, l, g, h, inverse)
      ensures inverseCache.Keys == sigmad1Cache.Keys == sigmad2Cache.Keys == sigmaCache.Keys
           == {FullVisit(nVisits)}
    {
      var chol, derivative1, derivative2 := Derivatives(nVisits, nTheta, l, g, h);
      var fv := MakeFullVisit(nVisits);
      assert fv == FullVisit(nVisits);
      var sigma := MulT(chol, chol);
      var f := FullPattern(nVisits, nTheta, chol, derivative1, derivative2, inverse);
      SeededCachesHold(f);
      full := f;
      fullVisit := fv;
      sigmaCache := map[fv := sigma];
      sigmad1Cache := map[fv := derivative1];
      sigmad2Cache := map[fv := derivative2];
      inverseCache := map[fv := inverse(sigma)];
      new;
      assert sigmaCache.Keys == sigmad1Cache.Keys == sigmad2Cache.Keys == inverseCache.Keys == {fv};
    }

    /** `get_sigma_derivative1` (lines 127-140). */
    method GetSigmaDerivative1(visits: seq<int>) returns (r: Result<Matrix>)
      requires Valid()
      modifies this`sigmad1Cache
      ensures Valid()
      ensures unchanged(this`inverseCache, this`sigmad2Cache, this`sigmaCache)
      ensures visits in old(sigmad1Cache) ==> r == Success(old(sigmad1Cache)[visits]) && sigmad1Cache == old(sigmad1Cache)
      ensures r.Success? ==> sigmad1Cache == old(sigmad1Cache)[visits := r.value]
      ensures visits !in old(sigmad1Cache) && ValidPattern(visits, full.n) ==>
                r.Success? && sigmad1Cache == old(sigmad1Cache)[visits := r.value]
      ensures !ValidPattern(visits, full.n) ==> r == Failure(PatternOutOfRange(visits)) && sigmad1Cache == old(sigmad1Cache)
      ensures r.Success? ==> ValidPattern(visits, full.n) && r.value == full.SigmaD1At(visits)
    {
      if visits in sigmad1Cache {
        return Success(sigmad1Cache[visits]);
      }
      if !ValidPattern(visits, full.n) {
        return Failure(PatternOutOfRange(visits));
      }
      var ret := RestrictEach(sigmad1Cache[fullVisit], full.n, full.nTheta, visits);
      RestrictBlocksFull(full.derivative1, full.n, full.nTheta);
      sigmad1Cache := sigmad1Cache[visits := ret];
      return Success(ret);
    }

    /** `get_sigma_derivative2` (lines 141-154). */
    method GetSigmaDerivative2(visits: seq<int>) returns (r: Result<Matrix>)
      requires Valid()
      modifies this`sigmad2Cache
      ensures Valid()
      ensures unchanged(this`inverseCache, this`sigmad1Cache, this`sigmaCache)
      ensures visits in old(sigmad2Cache) ==> r == Success(old(sigmad2Cache)[visits]) && sigmad2Cache == old(sigmad2Cache)
      ensures r.Success? ==> sigmad2Cache == old(sigmad2Cache)[visits := r.value]
      ensures visits !in old(sigmad2Cache) && ValidPattern(visits, full.n) ==>
                r.Success? && sigmad2Cache == old(sigmad2Cache)[visits := r.value]
      ensures !ValidPattern(visits, full.n) ==> r == Failure(PatternOutOfRange(visits)) && sigmad2Cache == old(sigmad2Cache)
      ensures r.Success? ==> ValidPattern(visits, full.n) && r.value == full.SigmaD2At(visits)
    {
      if visits in sigmad2Cache {
        return Success(sigmad2Cache[visits]);
      }
      if !ValidPattern(visits, full.n) {
        return Failure(PatternOutOfRange(visits));
      }
      var ret := RestrictEach(sigmad2Cache[fullVisit], full.n, full.nTheta * full.nTheta, visits);
      RestrictBlocksFull(full.derivative2, full.n, full.nTheta * full.nTheta);
      sigmad2Cache := sigmad2Cache[visits := ret];
      return Success(ret);
    }

    /** `get_sigma` (lines 155-165). */
    method GetSigma(visits: seq<int>) returns (r: Result<Matrix>)
      requires Valid()
      modifies this`sigmaCache
      ensures Valid()
      ensures unchanged(this`inverseCache, this`sigmad1Cache, this`sigmad2Cache)
      ensures visits in old(sigmaCache) ==> r == Success(old(sigmaCache)[visits]) && sigmaCache == old(sigmaCache)
      ensures r.Success? ==> sigmaCache == old(sigmaCache)[visits := r.value]
      ensures visits !in old(sigmaCache) && ValidPattern(visits, full.n) ==>
                r.Success? && sigmaCache == old(sigmaCache)[visits := r.value]
      ensures !ValidPattern(visits, full.n) ==> r == Failure(PatternOutOfRange(visits)) && sigmaCache == old(sigmaCache)
      ensures r.Success? ==> ValidPattern(visits, full.n) && r.value == full.SigmaAt(visits)
    {
      if visits in sigmaCache {
        return Success(sigmaCache[visits]);
      }
      if !ValidPattern(visits, full.n) {
        return Failure(PatternOutOfRange(visits));
      }
      RestrictFull(full.Sigma());
      var ret := Restrict(sigmaCache[fullVisit], visits);
      sigmaCache := sigmaCache[visits := ret];
      return Success(ret);
    }

    /** `get_inverse` (lines 166-180): on a miss the covariance of the pattern
        is re-formed from the selected rows of L, S * L * (S * L)^t, and
        inverted. */
    method GetInverse(visits: seq<int>) returns (r: Result<Matrix>)
      requires Valid()
      modifies this`inverseCache
      ensures Valid()
      ensures unchanged(this`sigmad1Cache, this`sigmad2Cache, this`sigmaCache)
      ensures visits in old(inverseCache) ==> r == Success(old(inverseCache)[visits]) && inverseCache == old(inverseCache)
      ensures r.Success? ==> inverseCache == old(inverseCache)[visits := r.value]
      ensures visits !in old(inverseCache) && ValidPattern(visits, full.n) ==>
                r.Success? && inverseCache == old(inverseCache)[visits := r.value]
      ensures !ValidPattern(visits, full.n) ==> r == Failure(PatternOutOfRange(visits)) && inverseCache == old(inverseCache)
      ensures r.Success? ==> ValidPattern(visits, full.n) && r.value == full.InverseAt(visits)
    {
      if visits in inverseCache {
        return Success(inverseCache[visits]);
      }
      if !ValidPattern(visits, full.n) {
        return Failure(PatternOutOfRange(visits));
      }
      var lTilde := SelectRows(full.chol, visits);
      var covariance := MulT(lTilde, lTilde);
      RestrictOfCrossProduct(full.chol, visits);
      var sigmaInv := full.inverse(covariance);
      inverseCache := inverseCache[visits := sigmaInv];
      return Success(sigmaInv);
    }
  }

  /** Looking a pattern up twice gives the same four results, and the second
      round of lookups changes no map: after the first round a pattern inside
      0 .. n_visits - 1 has its entry in every map, and nothing else changed. */
  method LookupTwice(c: Chols, visits: seq<int>)
    returns (first: seq<Result<Matrix>>, second: seq<Result<Matrix>>, ghost midway: seq<map<seq<int>, Matrix>>)
    requires c.Valid()
    modifies c
    ensures c.Valid()
    ensures first == second
    ensures midway == [c.sigmaCache, c.sigmad1Cache, c.sigmad2Cache, c.inverseCache]
    ensures ValidPattern(visits, c.full.n) ==>
              && c.sigmaCache == old(c.sigmaCache)[visits := c.full.SigmaAt(visits)]
              && c.sigmad1Cache == old(c.sigmad1Cache)[visits := c.full.SigmaD1At(visits)]
              && c.sigmad2Cache == old(c.sigmad2Cache)[visits := c.full.SigmaD2At(visits)]
              && c.inverseCache == old(c.inverseCache)[visits := c.full.InverseAt(visits)]
    ensures !ValidPattern(visits, c.full.n) ==> unchanged(c)
    ensures old(c.Keys()).Within(c.Keys())
  {
    var s1 := c.GetSigma(visits);
    var d1 := c.GetSigmaDerivative1(visits);
    var d2 := c.GetSigmaDerivative2(visits);
    var i1 := c.GetInverse(visits);
    first := [s1, d1, d2, i1];
    midway := [c.sigmaCache, c.sigmad1Cache, c.sigmad2Cache, c.inverseCache];
    var s2 := c.GetSigma(visits);
    var e1 := c.GetSigmaDerivative1(visits);
    var e2 := c.GetSigmaDerivative2(visits);
    var i2 := c.GetInverse(visits);
    second := [s2, e1, e2, i2];
  }
}

/**
  The evaluation framework's index bookkeeping (`Framework.__init__` and
  `Framework.compute_indices` in code/evaluation_framework.py): cross-validation folds laid
  out as scikit-learn's non-shuffled `KFold` lays them out, and per fold a list of subsamples,
  each the training part of a shuffled `KFold`. The shuffle is an input permutation.
*/
module Partition {
  import opened Wrappers
  import opened Stability

  /** `[lo, lo + 1, ..., hi - 1]`. */
  function Range(lo: int, hi: int): (r: seq<int>)
    requires lo <= hi
    ensures |r| == hi - lo && forall k :: 0 <= k < |r| ==> r[k] == lo + k
  {
    seq(hi - lo, k requires 0 <= k < hi - lo => lo + k)
  }

  predicate Increasing(s: seq<int>) {
    forall a, b :: 0 <= a < b < |s| ==> s[a] < s[b]
  }

  /** The integers of [0, n) that are not in `ex`, ascending: a boolean mask applied to `arange(n)`. */
  function Without(n: nat, ex: set<int>): (r: seq<int>)
    ensures forall x {:trigger x in r} :: x in r <==> 0 <= x < n && x !in ex
    ensures forall k :: 0 <= k < |r| ==> 0 <= r[k] < n
    ensures Increasing(r)
  {
    if n == 0 then []
    else
      var front := Without(n - 1, ex);
      if n - 1 in ex then front else front + [n - 1]
  }

  /** `KFold` refuses fewer than two folds, then more folds than samples. */
  datatype SplitError = TooFewFolds | MoreFoldsThanSamples

  function KFoldCheck(n: int, folds: int): (r: Option<SplitError>)
    ensures r.None? <==> 2 <= folds <= n
  {
    if folds <= 1 then Some(TooFewFolds)
    else if folds > n then Some(MoreFoldsThanSamples)
    else None
  }

  /** The size of block `j`: the first `n % f` blocks hold one element more than the others. */
  function FoldSize(n: nat, f: nat, j: nat): nat
    requires f > 0
  {
    n / f + (if j < n % f then 1 else 0)
  }

  /** Where block `j` starts: blocks are laid end to end from 0. */
  function FoldStart(n: nat, f: nat, j: nat): nat
    requires f > 0
  {
    if j == 0 then 0 else FoldStart(n, f, j - 1) + FoldSize(n, f, j - 1)
  }

  /** The start of block `j` in closed form: j (n / f) + min(j, n % f). */
  lemma {:induction false} FoldStartClosed(n: nat, f: nat, j: nat)
    requires f > 0
    ensures FoldStart(n, f, j) == j * (n / f) + Min(j, n % f)
  {
    if j > 0 {
      FoldStartClosed(n, f, j - 1);
      var q := n / f;
      assert j * q == (j - 1) * q + q;
    }
  }

  /** The `f` blocks end exactly at `n`. */
  lemma FoldStartEnd(n: nat, f: nat)
    requires f > 0
    ensures FoldStart(n, f, f) == n
  {
    FoldStartClosed(n, f, f);
    assert n % f < f;
  }

  lemma FoldStartMonotone(n: nat, f: nat, j: nat, k: nat)
    requires f > 0 && j <= k
    ensures FoldStart(n, f, j) <= FoldStart(n, f, k)
    decreases k - j
  {
    if j < k {
      FoldStartMonotone(n, f, j, k - 1);
    }
  }

  lemma FoldStartWithin(n: nat, f: nat, j: nat)
    requires f > 0 && j <= f
    ensures FoldStart(n, f, j) <= n
  {
    FoldStartMonotone(n, f, j, f);
    FoldStartEnd(n, f);
  }

  /** Test indices of fold `j`: the contiguous ascending block [FoldStart(j), FoldStart(j + 1)). */
  function TestBlock(n: nat, f: nat, j: nat): (r: seq<int>)
    requires 0 < f && j < f
    ensures |r| == FoldSize(n, f, j)
    ensures forall k :: 0 <= k < |r| ==> r[k] == FoldStart(n, f, j) + k
    ensures forall k :: 0 <= k < |r| ==> 0 <= r[k] < n
  {
    FoldStartWithin(n, f, j + 1);
    Range(FoldStart(n, f, j), FoldStart(n, f, j + 1))
  }

  /** Training indices of fold `j`: every other index, ascending. */
  function TrainOf(n: nat, f: nat, j: nat): seq<int>
    requires 0 < f && j < f
  {
    Without(n, AsSet(TestBlock(n, f, j)))
  }

  /** Train and test of a fold split [0, n) in two: disjoint, and together every index. */
  lemma TrainTestPartition(n: nat, f: nat, j: nat)
    requires 0 < f && j < f
    ensures Increasing(TrainOf(n, f, j)) && Increasing(TestBlock(n, f, j))
    ensures forall x :: x in TrainOf(n, f, j) ==> x !in TestBlock(n, f, j)
    ensures forall x :: 0 <= x < n <==> x in TrainOf(n, f, j) || x in TestBlock(n, f, j)
  {
    var te := TestBlock(n, f, j);
    forall x | x in te ensures 0 <= x < n {
      var k :| 0 <= k < |te| && te[k] == x;
    }
  }

  /** Training indices are the block's complement, written as the two ranges around it. */
  lemma TrainIsComplement(n: nat, f: nat, j: nat)
    requires 0 < f && j < f
    ensures FoldStart(n, f, j + 1) <= n
    ensures TrainOf(n, f, j) == Range(0, FoldStart(n, f, j)) + Range(FoldStart(n, f, j + 1), n)
  {
    FoldStartWithin(n, f, j + 1);
    var lo, hi := FoldStart(n, f, j), FoldStart(n, f, j + 1);
    var ex := AsSet(TestBlock(n, f, j));
    assert forall x :: x in ex <==> lo <= x < hi by {
      var te := TestBlock(n, f, j);
      forall x | lo <= x < hi ensures x in ex {
        assert te[x - lo] == x;
      }
    }
    WithoutInterval(n, lo, hi, ex);
  }

  /** With nothing of [0, m) excluded, `Without` keeps all of [0, m). */
  lemma {:induction false} WithoutNone(m: nat, ex: set<int>)
    requires forall x :: 0 <= x < m ==> x !in ex
    ensures Without(m, ex) == Range(0, m)
  {
    if m > 0 {
      WithoutNone(m - 1, ex);
      assert Range(0, m) == Range(0, m - 1) + [m - 1];
    }
  }

  /** Excluded indices in [lo, m) add nothing. */
  lemma {:induction false} WithoutSkips(m: nat, lo: nat, ex: set<int>)
    requires lo <= m && forall x :: lo <= x < m ==> x in ex
    ensures Without(m, ex) == Without(lo, ex)
  {
    if m > lo {
      WithoutSkips(m - 1, lo, ex);
    }
  }

  /** Kept indices in [hi, m) are appended in order. */
  lemma {:induction false} WithoutKeeps(m: nat, hi: nat, ex: set<int>)
    requires hi <= m && forall x :: hi <= x < m ==> x !in ex
    ensures Without(m, ex) == Without(hi, ex) + Range(hi, m)
  {
    if m > hi {
      assert m - 1 !in ex;
      WithoutKeeps(m - 1, hi, ex);
      WithoutKeepsStep(m, hi, ex);
    } else {
      AppendEmpty(Without(hi, ex));
    }
  }

  lemma AppendEmpty<T>(s: seq<T>)
    ensures s + [] == s
  {
  }

  lemma WithoutKeepsStep(m: nat, hi: nat, ex: set<int>)
    requires hi < m && m - 1 !in ex
    requires Without(m - 1, ex) == Without(hi, ex) + Range(hi, m - 1)
    ensures Without(m, ex) == Without(hi, ex) + Range(hi, m)
  {
    calc {
      Without(m, ex);
      { WithoutSnoc(m, ex); }
      Without(m - 1, ex) + [m - 1];
      (Without(hi, ex) + Range(hi, m - 1)) + [m - 1];
      { AppendAssoc(Without(hi, ex), Range(hi, m - 1), [m - 1]); }
      Without(hi, ex) + (Range(hi, m - 1) + [m - 1]);
      { RangeSnoc(hi, m); }
      Without(hi, ex) + Range(hi, m);
    }
  }

  lemma WithoutSnoc(m: nat, ex: set<int>)
    requires m > 0 && m - 1 !in ex
    ensures Without(m, ex) == Without(m - 1, ex) + [m - 1]
  {
  }

  lemma RangeSnoc(lo: int, hi: int)
    requires lo < hi
    ensures Range(lo, hi) == Range(lo, hi - 1) + [hi - 1]
  {
  }

  lemma AppendAssoc<T>(a: seq<T>, b: seq<T>, c: seq<T>)
    ensures a + b + c == a + (b + c)
  {
  }

  /** Removing the interval [lo, hi) from [0, n) leaves the two ranges around it. */
  lemma WithoutInterval(n: nat, lo: nat, hi: nat, ex: set<int>)
    requires lo <= hi <= n
    requires forall x :: x in ex <==> lo <= x < hi
    ensures Without(n, ex) == Range(0, lo) + Range(hi, n)
  {
    WithoutNone(lo, ex);
    WithoutSkips(hi, lo, ex);
    WithoutKeeps(n, hi, ex);
  }

  /** The first `k` test blocks, laid end to end. */
  function Blocks(n: nat, f: nat, k: nat): seq<int>
    requires 0 < f && k <= f
  {
    if k == 0 then [] else Blocks(n, f, k - 1) + TestBlock(n, f, k - 1)
  }

  /** Concatenating the test blocks of all folds gives 0, 1, ..., n - 1. */
  lemma {:induction false} BlocksCover(n: nat, f: nat, k: nat)
    requires 0 < f && k <= f
    ensures FoldStart(n, f, k) <= n
    ensures Blocks(n, f, k) == Range(0, FoldStart(n, f, k))
  {
    FoldStartWithin(n, f, k);
    if k > 0 {
      BlocksCover(n, f, k - 1);
    }
  }

  lemma TestBlocksConcatenate(n: nat, f: nat)
    requires 0 < f
    ensures Blocks(n, f, f) == Range(0, n)
  {
    BlocksCover(n, f, f);
    FoldStartEnd(n, f);
  }

  /** Ten samples in five folds: every test block holds two consecutive samples. */
  lemma TenSamplesFiveFolds(j: nat)
    requires j < 5
    ensures TestBlock(10, 5, j) == [2 * j, 2 * j + 1]
  {
    FoldStartClosed(10, 5, j);
  }

  /** `p` is an ordering of 0, ..., n - 1, as a shuffle produces. */
  predicate IsPermutation(p: seq<int>, n: int) {
    |p| == n &&
    (forall k :: 0 <= k < |p| ==> 0 <= p[k] < n) &&
    (forall a, b :: 0 <= a < b < |p| ==> p[a] != p[b])
  }

  /** The `j`-th block of the shuffled order: the samples subsample `j` leaves out. */
  function ShuffledBlock(n: nat, s: nat, perm: seq<int>, j: nat): (r: seq<int>)
    requires 0 < s && j < s && |perm| == n
    ensures |r| == FoldSize(n, s, j)
  {
    FoldStartWithin(n, s, j + 1);
    FoldStartMonotone(n, s, j, j + 1);
    perm[FoldStart(n, s, j)..FoldStart(n, s, j + 1)]
  }

  /**
    Subsample `j` of a shuffled `KFold` over `n` samples into `s` parts: the ascending
    indices outside the `j`-th block of the shuffled order.
  */
  function Subsample(n: nat, s: nat, perm: seq<int>, j: nat): (r: seq<int>)
    requires 0 < s && j < s && |perm| == n
    ensures Increasing(r) && forall k :: 0 <= k < |r| ==> 0 <= r[k] < n
    ensures forall x :: x in r <==> 0 <= x < n && x !in ShuffledBlock(n, s, perm, j)
  {
    Without(n, AsSet(ShuffledBlock(n, s, perm, j)))
  }

  /** The subsample lists of one fold, in order. */
  function Subsamples(n: nat, s: nat, perm: seq<int>): (r: seq<seq<int>>)
    requires 0 < s && |perm| == n
    ensures |r| == s && forall j :: 0 <= j < s ==> r[j] == Subsample(n, s, perm, j)
  {
    seq(s, j requires 0 <= j < s => Subsample(n, s, perm, j))
  }

  /** A subsample leaves out exactly its block of the shuffled order, so it keeps n - |block| samples. */
  lemma SubsampleSize(n: nat, s: nat, perm: seq<int>, j: nat)
    requires 0 < s && j < s && IsPermutation(perm, n)
    ensures FoldStart(n, s, j + 1) <= n
    ensures |Subsample(n, s, perm, j)| == n - FoldSize(n, s, j)
  {
    FoldStartWithin(n, s, j + 1);
    var block := ShuffledBlock(n, s, perm, j);
    assert forall a, b :: 0 <= a < b < |block| ==> block[a] != block[b];
    DistinctCard(block);
    ExcludedCount(n, AsSet(block));
  }

  /** A list without repetitions has as many elements as its set. */
  lemma {:induction false} DistinctCard<T>(s: seq<T>)
    requires forall a, b :: 0 <= a < b < |s| ==> s[a] != s[b]
    ensures |AsSet(s)| == |s|
  {
    if s != [] {
      var front := s[..|s| - 1];
      DistinctCard(front);
      assert AsSet(s) == AsSet(front) + {s[|s| - 1]};
      assert s[|s| - 1] !in AsSet(front);
    }
  }

  /** Removing a set of indices of [0, n) from [0, n) leaves n minus its size. */
  lemma {:induction false} ExcludedCount(n: nat, ex: set<int>)
    requires forall x :: x in ex ==> 0 <= x < n
    ensures |Without(n, ex)| == n - |ex|
  {
    if n == 0 {
      forall x | x in ex ensures false { }
      assert ex == {};
    } else {
      var rest := ex - {n - 1};
      ExcludedCount(n - 1, rest);
      assert Without(n - 1, ex) == Without(n - 1, rest) by {
        SameBelow(n - 1, ex, rest);
      }
      if n - 1 in ex {
        assert ex == rest + {n - 1};
      } else {
        assert ex == rest;
      }
    }
  }

  /** `Without(m, ·)` only looks at [0, m). */
  lemma {:induction false} SameBelow(m: nat, a: set<int>, b: set<int>)
    requires forall x :: 0 <= x < m ==> (x in a <==> x in b)
    ensures Without(m, a) == Without(m, b)
  {
    if m > 0 {
      SameBelow(m - 1, a, b);
    }
  }

  /** The indices of one fold, as the dict `{'trIndices', 'teIndices', 'ssIndices'}`. */
  datatype FoldIndices = FoldIndices(trIndices: seq<int>, teIndices: seq<int>, ssIndices: seq<seq<int>>)

  /** The fold a successful `compute_indices` leaves: new train and test lists, the subsamples appended. */
  function Computed(n: nat, f: nat, s: nat, perm: seq<int>, i: nat, before: FoldIndices): FoldIndices
    requires 0 < f && i < f && 0 < s && |perm| == n
  {
    FoldIndices(TrainOf(n, f, i), TestBlock(n, f, i), before.ssIndices + Subsamples(n, s, perm))
  }

  class Framework {
    var numSamples: int
    var numFolds: int
    var numSubsamples: int
    var xpIndices: seq<FoldIndices>

    /** One slot per fold (none for a non-positive number of folds). */
    ghost predicate Valid()
      reads this
    {
      |xpIndices| == (if numFolds > 0 then numFolds else 0)
    }

    /** A fresh framework: one slot per fold, each with three empty lists. */
    constructor(numSamples: int, numFolds: int, numSubsamples: int)
      ensures Valid()
      ensures this.numSamples == numSamples && this.numFolds == numFolds && this.numSubsamples == numSubsamples
      ensures forall i :: 0 <= i < |xpIndices| ==> xpIndices[i] == FoldIndices([], [], [])
    {
      this.numSamples := numSamples;
      this.numFolds := numFolds;
      this.numSubsamples := numSubsamples;
      xpIndices := seq(if numFolds > 0 then numFolds else 0, _ => FoldIndices([], [], []));
    }

    /** The inner loop of `compute_indices`: append every subsample of the shuffle `perm` to fold `i`. */
    method AppendSubsamples(i: nat, perm: seq<int>)
      requires i < |xpIndices| && 0 < numSubsamples && 0 <= numSamples && |perm| == numSamples
      modifies this
      ensures numSamples == old(numSamples) && numFolds == old(numFolds) && numSubsamples == old(numSubsamples)
      ensures xpIndices == old(xpIndices)[i := old(xpIndices)[i].(ssIndices := old(xpIndices)[i].ssIndices +
                Subsamples(numSamples, numSubsamples, perm))]
    {
      ghost var before := xpIndices[i].ssIndices;
      ghost var subs := Subsamples(numSamples, numSubsamples, perm);
      for j := 0 to numSubsamples
        invariant numSamples == old(numSamples) && numFolds == old(numFolds) && numSubsamples == old(numSubsamples)
        invariant |xpIndices| == |old(xpIndices)|
        invariant forall k :: 0 <= k < |xpIndices| && k != i ==> xpIndices[k] == old(xpIndices)[k]
        invariant xpIndices[i] == old(xpIndices)[i].(ssIndices := before + subs[..j])
      {
        var sub := Subsample(numSamples, numSubsamples, perm, j);
        xpIndices := xpIndices[i := xpIndices[i].(ssIndices := xpIndices[i].ssIndices + [sub])];
        assert subs[..j + 1] == subs[..j] + [sub];
      }
      assert subs[..numSubsamples] == subs;
    }

    /**
      `compute_indices`: for every fold, overwrite its train and test lists with the `KFold`
      split and append the training part of every subsample split of `perms[i]`. The fold
      split is checked before anything changes; the subsample split is checked once fold 0
      has been overwritten, so a bad number of subsamples leaves that fold changed.
    */
    method ComputeIndices(perms: seq<seq<int>>) returns (r: Result<(), SplitError>)
      requires Valid() && |perms| == |xpIndices|
      requires forall i :: 0 <= i < |perms| ==> IsPermutation(perms[i], numSamples)
      modifies this
      ensures Valid() && |xpIndices| == |old(xpIndices)|
      ensures numSamples == old(numSamples) && numFolds == old(numFolds) && numSubsamples == old(numSubsamples)
      ensures KFoldCheck(numSamples, numFolds).Some? ==>
                r == Failure(KFoldCheck(numSamples, numFolds).value) && xpIndices == old(xpIndices)
      ensures KFoldCheck(numSamples, numFolds).None? && KFoldCheck(numSamples, numSubsamples).Some? ==>
                r == Failure(KFoldCheck(numSamples, numSubsamples).value) &&
                xpIndices == old(xpIndices)[0 := FoldIndices(TrainOf(numSamples, numFolds, 0), TestBlock(numSamples, numFolds, 0), old(xpIndices)[0].ssIndices)]
      ensures KFoldCheck(numSamples, numFolds).None? && KFoldCheck(numSamples, numSubsamples).None? ==>
                r.Success? && |xpIndices| == numFolds &&
                (forall i :: 0 <= i < |xpIndices| ==> |perms[i]| == numSamples) &&
                forall i :: 0 <= i < |xpIndices| ==>
                  xpIndices[i] == Computed(numSamples, numFolds, numSubsamples, perms[i], i, old(xpIndices)[i])
    {
      var check := KFoldCheck(numSamples, numFolds);
      if check.Some? {
        return Failure(check.value);
      }
      var i := 0;
      while i < numFolds
        invariant 0 <= i <= numFolds && |xpIndices| == numFolds
        invariant numSamples == old(numSamples) && numFolds == old(numFolds) && numSubsamples == old(numSubsamples)
        invariant i > 0 ==> KFoldCheck(numSamples, numSubsamples).None?
        invariant forall k :: 0 <= k < i ==>
                    xpIndices[k] == Computed(numSamples, numFolds, numSubsamples, perms[k], k, old(xpIndices)[k])
        invariant forall k :: i <= k < numFolds ==> xpIndices[k] == old(xpIndices)[k]
      {
        xpIndices := xpIndices[i := xpIndices[i].(trIndices := TrainOf(numSamples, numFolds, i),
                                                  teIndices := TestBlock(numSamples, numFolds, i))];
        var ssCheck := KFoldCheck(numSamples, numSubsamples);
        if ssCheck.Some? {
          return Failure(ssCheck.value);
        }
        AppendSubsamples(i, perms[i]);
        i := i + 1;
      }
      return Success(());
    }
  }

  /**
    As written, fold 0 of four samples in two folds tests samples 0 and 1, and with the
    identity shuffle its second subsample is exactly those two samples: the subsamples used
    to pick hyperparameters contain the fold's test samples.
  */
  lemma SubsampleLeaksTestSamples()
    ensures TestBlock(4, 2, 0) == [0, 1]
    ensures Subsample(4, 2, [0, 1, 2, 3], 1) == [0, 1]
  {
    FoldStartClosed(4, 2, 1);
    FoldStartClosed(4, 2, 2);
    var perm := [0, 1, 2, 3];
    assert perm[2..4] == [2, 3];
    var ex := AsSet([2, 3]);
    assert forall x :: x in ex <==> 2 <= x < 4;
    WithoutInterval(4, 2, 4, ex);
  }

  /**
    Subsample `j` drawn from the fold's training samples instead: the shuffled `KFold`
    runs over positions of `train`, and the kept positions are mapped back to samples.
  */
  function TrainSubsample(train: seq<int>, s: nat, perm: seq<int>, j: nat): (r: seq<int>)
    requires 0 < s && j < s && |perm| == |train|
    ensures |r| == |Subsample(|train|, s, perm, j)|
    ensures forall x :: x in r ==> x in train
  {
    var positions := Subsample(|train|, s, perm, j);
    seq(|positions|, k requires 0 <= k < |positions| => train[positions[k]])
  }

  /** Subsamples drawn from the training samples never contain a test sample of the fold. */
  lemma TrainSubsampleAvoidsTest(n: nat, f: nat, i: nat, s: nat, perm: seq<int>, j: nat)
    requires 0 < f && i < f && 0 < s && j < s && |perm| == |TrainOf(n, f, i)|
    ensures forall x :: x in TrainSubsample(TrainOf(n, f, i), s, perm, j) ==> x !in TestBlock(n, f, i)
  {
    TrainTestPartition(n, f, i);
  }
}

/**
  Kuncheva's consistency index, the stability statistic the harness maximises when it
  picks hyperparameters and reports across cross-validation folds
  (`consistency_index`, `consistency_index_k`, `consistency_index_task` in
  code/evaluation_framework.py). Floating point is modelled with exact reals.
*/
module Stability {
  import opened Wrappers
  import opened Text

  /** `set(sel)`: the features of a selection list, duplicates and order forgotten. */
  function AsSet<T(==)>(s: seq<T>): set<T> {
    set x | x in s
  }

  function Min(a: nat, b: nat): nat {
    if a <= b then a else b
  }

  /** `len(sel1) * len(sel2) / float(num_features)`: the overlap two random selections of these sizes would have. */
  function Expected<T>(sel1: set<T>, sel2: set<T>, n: int): real
    requires n != 0
  {
    (|sel1| * |sel2|) as real / n as real
  }

  /** `float(min(len(sel1), len(sel2)))`: the largest overlap possible. */
  function MaxPossible<T>(sel1: set<T>, sel2: set<T>): real {
    Min(|sel1|, |sel2|) as real
  }

  /**
    The consistency index of two selections among `n` features:
    (observed - expected) / (maxposbl - expected), and exactly 0 when the denominator
    vanishes ("take everything" and "take nothing" are not rewarded).
  */
  function ConsistencyIndex<T>(sel1: set<T>, sel2: set<T>, n: int): real
    requires n != 0
  {
    var observed := |sel1 * sel2| as real;
    var expected := Expected(sel1, sel2, n);
    var maxposbl := MaxPossible(sel1, sel2);
    if expected != maxposbl then (observed - expected) / (maxposbl - expected) else 0.0
  }

  /** The index does not depend on which selection comes first. */
  lemma ConsistencyIndexSymmetric<T>(sel1: set<T>, sel2: set<T>, n: int)
    requires n != 0
    ensures ConsistencyIndex(sel1, sel2, n) == ConsistencyIndex(sel2, sel1, n)
  {
    assert sel1 * sel2 == sel2 * sel1;
    assert |sel1| * |sel2| == |sel2| * |sel1|;
  }

  lemma ExpectedVersusMax(a: nat, b: nat, n: nat)
    requires 0 < n && a <= n && b <= n
    ensures (a * b) as real / n as real <= Min(a, b) as real
    ensures (a * b) as real / n as real == Min(a, b) as real <==> (a == 0 || b == 0 || a == n || b == n)
  {
    var m := Min(a, b);
    var big := if a <= b then b else a;
    assert a * b == m * big;
    assert m * big <= m * n by {
      assert big <= n;
    }
    var e := (a * b) as real / n as real;
    assert e * n as real == (a * b) as real;
    if m * big == m * n {
      assert e == m as real;
      assert m == 0 || big == n;
    } else {
      assert m * big < m * n;
      assert e * n as real < m as real * n as real;
      assert e != m as real;
      assert m != 0 && big != n;
    }
  }

  /**
    The guard falls (the index is 0 with no division) exactly when one selection is
    empty or one selection is the whole feature set.
  */
  lemma DegenerateCase<T>(sel1: set<T>, sel2: set<T>, n: nat)
    requires 0 < n && |sel1| <= n && |sel2| <= n
    ensures Expected(sel1, sel2, n) == MaxPossible(sel1, sel2) <==>
              (|sel1| == 0 || |sel2| == 0 || |sel1| == n || |sel2| == n)
    ensures (|sel1| == 0 || |sel2| == 0 || |sel1| == n || |sel2| == n) ==> ConsistencyIndex(sel1, sel2, n) == 0.0
  {
    ExpectedVersusMax(|sel1|, |sel2|, n);
  }

  lemma IntersectionSize<T>(a: set<T>, b: set<T>)
    ensures |a * b| <= |a| && |a * b| <= |b|
  {
    assert a == (a - b) + (a * b);
    assert (a - b) * (a * b) == {};
    assert b == (b - a) + (a * b);
    assert (b - a) * (a * b) == {};
  }

  /** Selections of at most `n` features never score above 1. */
  lemma ConsistencyIndexAtMostOne<T>(sel1: set<T>, sel2: set<T>, n: nat)
    requires 0 < n && |sel1| <= n && |sel2| <= n
    ensures ConsistencyIndex(sel1, sel2, n) <= 1.0
  {
    ExpectedVersusMax(|sel1|, |sel2|, n);
    var e, m := Expected(sel1, sel2, n), MaxPossible(sel1, sel2);
    IntersectionSize(sel1, sel2);
    var o := |sel1 * sel2|;
    assert o as real <= m;
    if e != m {
      assert ConsistencyIndex(sel1, sel2, n) == (o as real - e) / (m - e);
      QuotientAtMostOne(o as real - e, m - e);
    }
  }

  /** A quotient whose numerator does not exceed its positive denominator is at most 1. */
  lemma QuotientAtMostOne(x: real, d: real)
    requires 0.0 < d && x <= d
    ensures x / d <= 1.0
  {
    assert x / d * d == x;
  }

  /** A selection of feature indices in [0, n) has at most `n` features. */
  lemma {:induction false} SelectionSize(sel: set<int>, n: nat)
    requires forall x :: x in sel ==> 0 <= x < n
    ensures |sel| <= n
  {
    if n > 0 {
      var rest := sel - {n - 1};
      SelectionSize(rest, n - 1);
      assert sel <= rest + {n - 1};
      assert |sel| <= |rest| + 1 by {
        if n - 1 in sel {
          assert sel == rest + {n - 1};
        } else {
          assert sel == rest;
        }
      }
    } else {
      forall x | x in sel ensures false { }
      assert sel == {};
    }
  }

  /** Two selections of feature indices in [0, n) never score above 1. */
  lemma ConsistencyIndexOfFeaturesAtMostOne(sel1: set<int>, sel2: set<int>, n: nat)
    requires 0 < n
    requires forall x :: x in sel1 ==> 0 <= x < n
    requires forall x :: x in sel2 ==> 0 <= x < n
    ensures ConsistencyIndex(sel1, sel2, n) <= 1.0
  {
    SelectionSize(sel1, n);
    SelectionSize(sel2, n);
    ConsistencyIndexAtMostOne(sel1, sel2, n);
  }

  /** A non-degenerate selection is perfectly consistent with itself. */
  lemma SelfConsistency<T>(sel: set<T>, n: nat)
    requires 0 < |sel| < n
    ensures ConsistencyIndex(sel, sel, n) == 1.0
  {
    ExpectedVersusMax(|sel|, |sel|, n);
    assert sel * sel == sel;
    var e, m := Expected(sel, sel, n), MaxPossible(sel, sel);
    assert m == |sel| as real;
    assert e != m;
    var d := m - e;
    assert d != 0.0;
    assert ConsistencyIndex(sel, sel, n) == d / d;
    assert d / d == 1.0;
  }

  /** The worked example: {1,2,3} against {2,3,4} among 10 features is (2-0.9)/(3-0.9) = 11/21. */
  lemma ConsistencyIndexExample()
    ensures ConsistencyIndex({1, 2, 3}, {2, 3, 4}, 10) == 11.0 / 21.0
  {
    assert {1, 2, 3} * {2, 3, 4} == {2, 3};
    assert |{2, 3}| == 2;
    assert |{1, 2, 3}| == 3 && |{2, 3, 4}| == 3;
  }

  /** Sum of the indices of `x` against each selection of `ys`. */
  function RowSum<T(==)>(x: seq<T>, ys: seq<seq<T>>, n: int): real
    requires n != 0
  {
    if ys == [] then 0.0
    else RowSum(x, ys[..|ys| - 1], n) + ConsistencyIndex(AsSet(x), AsSet(ys[|ys| - 1]), n)
  }

  /** Sum of the indices over all unordered pairs of selections of `sels`. */
  function PairSum<T(==)>(sels: seq<seq<T>>, n: int): real
    requires n != 0
  {
    if |sels| < 2 then 0.0 else RowSum(sels[0], sels[1..], n) + PairSum(sels[1..], n)
  }

  /** The number of unordered pairs among `k` items, k (k - 1) / 2. */
  function Pairs(k: nat): real {
    (k * (k - 1)) as real / 2.0
  }

  /** `2 / (k (k - 1))` times a sum over the unordered pairs of `k` items. */
  function PairScale(k: nat, total: real): real
    requires k >= 2
  {
    2.0 / (k * (k - 1)) as real * total
  }

  /** The k-way index: the mean of the pairwise indices over the k(k-1)/2 unordered pairs. */
  function KIndex<T(==)>(sels: seq<seq<T>>, n: int): real
    requires n != 0 && |sels| >= 2
  {
    PairScale(|sels|, PairSum(sels, n))
  }

  lemma KIndexIsMean<T>(sels: seq<seq<T>>, n: int)
    requires n != 0 && |sels| >= 2
    ensures Pairs(|sels|) > 0.0
    ensures KIndex(sels, n) == PairSum(sels, n) / Pairs(|sels|)
  {
    PairScaleIsMean(|sels|, PairSum(sels, n));
  }

  lemma PairScaleIsMean(k: nat, total: real)
    requires k >= 2
    ensures Pairs(k) > 0.0 && PairScale(k, total) == total / Pairs(k)
  {
    assert k * (k - 1) > 0;
  }

  lemma RowSumExtend<T>(x: seq<T>, s: seq<seq<T>>, lo: nat, hi: nat, n: int)
    requires n != 0 && lo <= hi < |s|
    ensures RowSum(x, s[lo..hi + 1], n) == RowSum(x, s[lo..hi], n) + ConsistencyIndex(AsSet(x), AsSet(s[hi]), n)
  {
    assert s[lo..hi + 1][..hi - lo] == s[lo..hi];
  }

  lemma PairSumPeel<T>(s: seq<seq<T>>, k: nat, n: int)
    requires n != 0 && k + 1 < |s|
    ensures PairSum(s[k..], n) == RowSum(s[k], s[k + 1..], n) + PairSum(s[k + 1..], n)
  {
    assert s[k..][1..] == s[k + 1..];
  }

  /** The inner loop of `consistency_index_k`: add the index of `x` against each selection of `ys`, in order. */
  method AddRow<T(==)>(acc: real, x: seq<T>, ys: seq<seq<T>>, n: int) returns (sum: real)
    requires n != 0
    ensures sum == acc + RowSum(x, ys, n)
  {
    sum := acc;
    var k2 := 0;
    while k2 < |ys|
      invariant 0 <= k2 <= |ys|
      invariant sum == acc + RowSum(x, ys[..k2], n)
    {
      RowSumExtend(x, ys, 0, k2, n);
      assert ys[0..k2] == ys[..k2] && ys[0..k2 + 1] == ys[..k2 + 1];
      sum := sum + ConsistencyIndex(AsSet(x), AsSet(ys[k2]), n);
      k2 := k2 + 1;
    }
    assert ys[..|ys|] == ys;
  }

  /**
    `consistency_index_k`: the nested loop over the pairs k1 < k2, then the scaling by
    2 / (k (k - 1)). Fewer than two selections is a division by zero in the source.
  */
  method ConsistencyIndexK<T(==)>(selList: seq<seq<T>>, n: int) returns (cidx: real)
    requires n != 0 && |selList| >= 2
    ensures cidx == KIndex(selList, n)
  {
    cidx := 0.0;
    var k1 := 0;
    while k1 < |selList| - 1
      invariant 0 <= k1 <= |selList| - 1
      invariant cidx + PairSum(selList[k1..], n) == PairSum(selList, n)
    {
      cidx := AddRow(cidx, selList[k1], selList[k1 + 1..], n);
      PairSumPeel(selList, k1, n);
      k1 := k1 + 1;
    }
    assert selList[0..] == selList;
    assert cidx == PairSum(selList, n);
    cidx := PairScale(|selList|, cidx);
  }

  /** With exactly two selections the k-way index is the pairwise index. */
  lemma KIndexOfTwo<T>(a: seq<T>, b: seq<T>, n: int)
    requires n != 0
    ensures KIndex([a, b], n) == ConsistencyIndex(AsSet(a), AsSet(b), n)
  {
    var s := [a, b];
    assert s[1..] == [b];
    assert [b][..0] == [];
    var ci := ConsistencyIndex(AsSet(a), AsSet(b), n);
    assert RowSum(a, [b], n) == ci;
    assert PairSum([b], n) == 0.0;
    assert PairSum(s, n) == ci;
    assert 2.0 / (2 as real) == 1.0;
  }

  function Copies<T>(x: seq<T>, k: nat): seq<seq<T>> {
    seq(k, _ => x)
  }

  lemma {:induction false} RowSumOfCopies<T>(x: seq<T>, m: nat, n: nat)
    requires 0 < |AsSet(x)| < n
    ensures RowSum(x, Copies(x, m), n) == m as real
  {
    if m > 0 {
      assert Copies(x, m)[..m - 1] == Copies(x, m - 1);
      RowSumOfCopies(x, m - 1, n);
      SelfConsistency(AsSet(x), n);
    }
  }

  lemma PairsStep(k: nat)
    requires k >= 2
    ensures Pairs(k) == (k - 1) as real + Pairs(k - 1)
  {
    assert (k - 1) * (k - 2) + 2 * (k - 1) == k * (k - 1);
  }

  lemma {:induction false} PairSumOfCopies<T>(x: seq<T>, k: nat, n: nat)
    requires 0 < |AsSet(x)| < n
    ensures PairSum(Copies(x, k), n) == Pairs(k)
  {
    if k >= 2 {
      assert Copies(x, k)[1..] == Copies(x, k - 1);
      RowSumOfCopies(x, k - 1, n);
      PairSumOfCopies(x, k - 1, n);
      PairsStep(k);
    } else {
      assert k * (k - 1) == 0;
    }
  }

  /** k >= 2 copies of one non-degenerate selection are perfectly consistent. */
  lemma KIndexOfCopies<T>(x: seq<T>, k: nat, n: nat)
    requires k >= 2 && 0 < |AsSet(x)| < n
    ensures KIndex(Copies(x, k), n) == 1.0
  {
    var sels := Copies(x, k);
    assert |sels| == k;
    PairSumOfCopies(x, k, n);
    KIndexIsMean(sels, n);
    SelfQuotient(Pairs(k));
  }

  /** A positive quantity divided by itself is 1. */
  lemma SelfQuotient(x: real)
    requires x > 0.0
    ensures x / x == 1.0
  {
  }

  /** Every feature index of `sel` lies in [0, n). */
  predicate InFeatures(sel: seq<int>, n: int) {
    forall j :: 0 <= j < |sel| ==> 0 <= sel[j] < n
  }

  /** Every selection of `sels` lists feature indices in [0, n). */
  predicate AllFeatures(sels: seq<seq<int>>, n: int) {
    forall i :: 0 <= i < |sels| ==> InFeatures(sels[i], n)
  }

  lemma {:induction false} RowSumAtMost(x: seq<int>, ys: seq<seq<int>>, n: nat)
    requires 0 < n && InFeatures(x, n) && AllFeatures(ys, n)
    ensures RowSum(x, ys, n) <= |ys| as real
  {
    if ys != [] {
      var last := ys[|ys| - 1];
      assert InFeatures(last, n);
      RowSumAtMost(x, ys[..|ys| - 1], n);
      ConsistencyIndexOfFeaturesAtMostOne(AsSet(x), AsSet(last), n);
    }
  }

  lemma {:induction false} PairSumAtMost(sels: seq<seq<int>>, n: nat)
    requires 0 < n && AllFeatures(sels, n)
    ensures PairSum(sels, n) <= Pairs(|sels|)
  {
    var k := |sels|;
    if k >= 2 {
      assert InFeatures(sels[0], n);
      RowSumAtMost(sels[0], sels[1..], n);
      PairSumAtMost(sels[1..], n);
      PairsStep(k);
    } else {
      assert k * (k - 1) == 0;
    }
  }

  /** The k-way index of selections of feature indices in [0, n) is at most 1. */
  lemma KIndexAtMostOne(sels: seq<seq<int>>, n: nat)
    requires 0 < n && |sels| >= 2 && AllFeatures(sels, n)
    ensures KIndex(sels, n) <= 1.0
  {
    PairSumAtMost(sels, n);
    PairScaleAtMostOne(|sels|, PairSum(sels, n));
  }

  lemma PairScaleAtMostOne(k: nat, total: real)
    requires k >= 2 && total <= Pairs(k)
    ensures PairScale(k, total) <= 1.0
  {
    PairScaleIsMean(k, total);
  }

  /** Errors `consistency_index_task` can raise: a fold file that cannot be opened, or fewer than two folds. */
  datatype TaskError = MissingFile(name: string) | ZeroDivision

  /** The selection list of task `t`: line `t` of every fold file, split on whitespace (tokens stay strings). */
  function FoldTokens(files: map<string, string>, foldFiles: seq<string>, t: nat): (r: seq<seq<string>>)
    requires forall f :: 0 <= f < |foldFiles| ==> foldFiles[f] in files
    ensures |r| == |foldFiles|
    ensures forall f :: 0 <= f < |foldFiles| ==> r[f] == Words(ReadLineAt(files[foldFiles[f]], t))
  {
    seq(|foldFiles|, f requires 0 <= f < |foldFiles| => Words(ReadLineAt(files[foldFiles[f]], t)))
  }

  /** Opening the fold files in order: the index of the first one that does not exist, or their number. */
  method FirstMissing(files: map<string, string>, names: seq<string>) returns (f: nat)
    ensures f <= |names|
    ensures forall g :: 0 <= g < f ==> names[g] in files
    ensures f < |names| ==> names[f] !in files
  {
    f := 0;
    while f < |names| && names[f] in files
      invariant f <= |names|
      invariant forall g :: 0 <= g < f ==> names[g] in files
    {
      f := f + 1;
    }
  }

  /** The k-way index of each list of selections, in order. */
  function Indices<T(==)>(perTask: seq<seq<seq<T>>>, n: int): seq<real>
    requires n != 0 && forall t :: 0 <= t < |perTask| ==> |perTask[t]| >= 2
  {
    if perTask == [] then []
    else Indices(perTask[..|perTask| - 1], n) + [KIndex(perTask[|perTask| - 1], n)]
  }

  lemma {:induction false} IndicesAt<T>(perTask: seq<seq<seq<T>>>, n: int)
    requires n != 0 && forall t :: 0 <= t < |perTask| ==> |perTask[t]| >= 2
    ensures var r := Indices(perTask, n);
      |r| == |perTask| && forall u :: 0 <= u < |perTask| ==> r[u] == KIndex(perTask[u], n)
  {
    if perTask != [] {
      var front := perTask[..|perTask| - 1];
      IndicesAt(front, n);
      var r := Indices(perTask, n);
      forall u | 0 <= u < |front| ensures r[u] == KIndex(perTask[u], n) {
        assert front[u] == perTask[u];
      }
    }
  }

  lemma IndicesSnoc<T>(perTask: seq<seq<seq<T>>>, t: nat, n: int)
    requires n != 0 && t < |perTask| && forall u :: 0 <= u < |perTask| ==> |perTask[u]| >= 2
    ensures Indices(perTask[..t + 1], n) == Indices(perTask[..t], n) + [KIndex(perTask[t], n)]
  {
    assert perTask[..t + 1][..t] == perTask[..t];
  }

  lemma TakeSnoc<T>(s: seq<T>, t: nat)
    requires t < |s|
    ensures s[..t + 1] == s[..t] + [s[t]]
  {
  }

  lemma TakeAll<T>(s: seq<T>)
    ensures s[..|s|] == s
  {
  }

  /** Per task, the token lists of every fold. */
  function TaskTokens(files: map<string, string>, foldFiles: seq<string>, numTasks: nat): (r: seq<seq<seq<string>>>)
    requires forall f :: 0 <= f < |foldFiles| ==> foldFiles[f] in files
    ensures |r| == numTasks && forall t :: 0 <= t < numTasks ==> r[t] == FoldTokens(files, foldFiles, t)
  {
    seq(numTasks, t requires 0 <= t < numTasks => FoldTokens(files, foldFiles, t))
  }

  /** The inner loop of `consistency_index_task`: line `t` of every fold's file, split on whitespace. */
  method ReadTask(files: map<string, string>, foldFiles: seq<string>, t: nat) returns (selList: seq<seq<string>>)
    requires forall f :: 0 <= f < |foldFiles| ==> foldFiles[f] in files
    ensures selList == FoldTokens(files, foldFiles, t)
  {
    ghost var tokens := FoldTokens(files, foldFiles, t);
    selList := [];
    for g := 0 to |foldFiles|
      invariant selList == tokens[..g]
    {
      var line := Words(ReadLineAt(files[foldFiles[g]], t));
      TakeSnoc(tokens, g);
      selList := selList + [line];
    }
    TakeAll(tokens);
  }

  /**
    `consistency_index_task`: open every fold's selection file, then for each task read
    the next line of every file and compute the k-way index of these token lists.
  */
  method ConsistencyIndexTask(files: map<string, string>, foldFiles: seq<string>, numTasks: nat, n: int)
    returns (r: Result<seq<real>, TaskError>)
    requires n != 0
    ensures r.Failure? && r.error.MissingFile? <==> exists f :: 0 <= f < |foldFiles| && foldFiles[f] !in files
    ensures r.Failure? && r.error.MissingFile? ==>
              exists f :: 0 <= f < |foldFiles| && r.error.name == foldFiles[f] && foldFiles[f] !in files &&
                forall g :: 0 <= g < f ==> foldFiles[g] in files
    ensures r == Failure(ZeroDivision) <==>
              (forall f :: 0 <= f < |foldFiles| ==> foldFiles[f] in files) && numTasks > 0 && |foldFiles| < 2
    ensures r.Success? ==> (numTasks > 0 ==> |foldFiles| >= 2) && r.value == Indices(TaskTokens(files, foldFiles, numTasks), n)
  {
    var missing := FirstMissing(files, foldFiles);
    if missing < |foldFiles| {
      return Failure(MissingFile(foldFiles[missing]));
    }
    r := IndexTasks(files, foldFiles, numTasks, n);
  }

  /** The task loop of `consistency_index_task`, once every fold file is known to exist. */
  method IndexTasks(files: map<string, string>, foldFiles: seq<string>, numTasks: nat, n: int)
    returns (r: Result<seq<real>, TaskError>)
    requires n != 0 && forall f :: 0 <= f < |foldFiles| ==> foldFiles[f] in files
    ensures r.Failure? ==> r == Failure(ZeroDivision) && numTasks > 0 && |foldFiles| < 2
    ensures r.Success? ==> (numTasks > 0 ==> |foldFiles| >= 2) && r.value == Indices(TaskTokens(files, foldFiles, numTasks), n)
  {
    var ciList: seq<real> := [];
    ghost var perTask := TaskTokens(files, foldFiles, numTasks);
    var t := 0;
    while t < numTasks
      invariant 0 <= t <= numTasks
      invariant t > 0 ==> |foldFiles| >= 2
      invariant |foldFiles| >= 2 ==> ciList == Indices(perTask[..t], n)
      invariant |foldFiles| < 2 ==> ciList == []
    {
      var selList := ReadTask(files, foldFiles, t);
      if |selList| < 2 {
        return Failure(ZeroDivision);
      }
      var ci := ConsistencyIndexK(selList, n);
      IndicesSnoc(perTask, t, n);
      ciList := ciList + [ci];
      t := t + 1;
    }
    TakeAll(perTask);
    return Success(ciList);
  }
}

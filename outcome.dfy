/**
  Scoring and reshaping of results: `compute_ppv_sensitivity` (membership vectors of the
  causal and the selected features, and their agreement), the re-ordering of predictions
  in `compute_ridge_selected_RMSE`, and the per-task slices `row[task_idx::num_tasks]` of
  `extract_res_from_files` (all in code/evaluation_framework.py).
*/
module Outcome {
  import opened Wrappers
  import opened Text
  import opened Partition

  /** Python list indexing accepts -n <= idx < n; anything else is an IndexError. */
  predicate InBounds(idx: int, n: nat) {
    -(n as int) <= idx < n
  }

  predicate AllInBounds(idxs: seq<int>, n: nat) {
    forall k :: 0 <= k < |idxs| ==> InBounds(idxs[k], n)
  }

  /** The element a valid Python index designates: negative indices count from the end. */
  function Position(idx: int, n: nat): (p: int)
    requires InBounds(idx, n)
    ensures 0 <= p < n && p == idx % n
  {
    if idx < 0 then idx + n else idx
  }

  /** Some listed index designates position `p`. */
  predicate Designates(idxs: seq<int>, n: nat, p: int)
    requires AllInBounds(idxs, n)
  {
    exists k :: 0 <= k < |idxs| && Position(idxs[k], n) == p
  }

  /**
    `[False] * n` with every listed index set to True, one at a time. Position `p` ends
    True exactly when some listed index designates it.
  */
  function Mask(idxs: seq<int>, n: nat): (m: seq<bool>)
    requires AllInBounds(idxs, n)
    ensures |m| == n
    ensures forall p :: 0 <= p < n ==> (m[p] <==> Designates(idxs, n, p))
  {
    if idxs == [] then seq(n, _ => false)
    else
      var front := idxs[..|idxs| - 1];
      var last := Position(idxs[|idxs| - 1], n);
      var m := Mask(front, n)[last := true];
      assert forall p :: 0 <= p < n && Designates(front, n, p) ==> Designates(idxs, n, p) by {
        forall p | 0 <= p < n && Designates(front, n, p) ensures Designates(idxs, n, p) {
          var k :| 0 <= k < |front| && Position(front[k], n) == p;
          assert idxs[k] == front[k];
        }
      }
      assert forall p :: 0 <= p < n && p != last && Designates(idxs, n, p) ==> Designates(front, n, p) by {
        forall p | 0 <= p < n && p != last && Designates(idxs, n, p) ensures Designates(front, n, p) {
          var k :| 0 <= k < |idxs| && Position(idxs[k], n) == p;
          assert k < |front| && front[k] == idxs[k];
        }
      }
      assert Designates(idxs, n, last);
      m
  }

  /** Selections that designate the same positions (the same features) have the same mask. */
  lemma SamePositionsSameMask(a: seq<int>, b: seq<int>, n: nat)
    requires AllInBounds(a, n) && AllInBounds(b, n)
    requires forall p :: 0 <= p < n ==> (Designates(a, n, p) <==> Designates(b, n, p))
    ensures Mask(a, n) == Mask(b, n)
  {
    var ma, mb := Mask(a, n), Mask(b, n);
    assert forall p :: 0 <= p < n ==> ma[p] == mb[p];
  }

  /** `sum(1 for i, j in zip(a, b) if i == j)`: the positions where the two vectors agree. */
  function Agree(a: seq<bool>, b: seq<bool>): (c: nat)
    requires |a| == |b|
    ensures c <= |a|
    ensures c == |a| <==> a == b
  {
    if a == [] then 0
    else
      var c := Agree(a[..|a| - 1], b[..|b| - 1]) + (if a[|a| - 1] == b[|b| - 1] then 1 else 0);
      assert a == b <==> a[..|a| - 1] == b[..|b| - 1] && a[|a| - 1] == b[|b| - 1] by {
        if a[..|a| - 1] == b[..|b| - 1] && a[|a| - 1] == b[|b| - 1] {
          assert a == a[..|a| - 1] + [a[|a| - 1]];
          assert b == b[..|b| - 1] + [b[|b| - 1]];
        }
      }
      c
  }

  /** What `compute_ppv_sensitivity` can raise. */
  datatype ScoreError =
    | ValueError      // a causal-file token is not an integer
    | IndexError      // an index outside [-n, n), or fewer selections than causal lines
    | NoFeatures      // n == 0: the division by the number of features fails

  /** The ppv and the tpr of one task. */
  datatype TaskScore = TaskScore(ppv: real, tpr: int)

  /**
    One causal line against the selection of the same task (`None` when the list of
    selections is too short): parse the line, mark the causal features, look the selection
    up, mark the selected features, and count the features whose two marks agree. ppv is
    that count over n; tpr is the same count, Python 2 integer-divided by n.
  */
  function LineScore(line: string, sel: Option<seq<int>>, n: nat): Result<TaskScore, ScoreError> {
    match ParseInts(Words(line))
    case None => Failure(ValueError)
    case Some(causal) =>
      if !AllInBounds(causal, n) || sel.None? || !AllInBounds(sel.value, n) then Failure(IndexError)
      else if n == 0 then Failure(NoFeatures)
      else
        var c := Agree(Mask(sel.value, n), Mask(causal, n));
        Success(TaskScore(c as real / n as real, c / n))
  }

  /** c / n as a fraction and as a Python 2 integer quotient, for 0 <= c <= n. */
  lemma Ratio(c: nat, n: nat)
    requires 0 < n && c <= n
    ensures 0.0 <= c as real / n as real <= 1.0
    ensures c as real / n as real == 1.0 <==> c == n
    ensures c / n == (if c == n then 1 else 0)
  {
    var q := c as real / n as real;
    assert q * n as real == c as real;
    if c < n {
      assert (1.0 - q) * n as real == (n - c) as real;
      assert (n - c) as real > 0.0;
    }
  }

  /** ppv lies in [0, 1]; tpr is 1 exactly when the masks are identical and 0 otherwise, and so is ppv == 1. */
  lemma LineScoreRange(line: string, sel: Option<seq<int>>, n: nat)
    requires LineScore(line, sel, n).Success?
    ensures var s := LineScore(line, sel, n).value;
      var causal := ParseInts(Words(line)).value;
      0.0 <= s.ppv <= 1.0 &&
      (s.tpr == 1 <==> Mask(sel.value, n) == Mask(causal, n)) &&
      (s.tpr == 0 <==> Mask(sel.value, n) != Mask(causal, n)) &&
      (s.ppv == 1.0 <==> Mask(sel.value, n) == Mask(causal, n))
  {
    var causal := ParseInts(Words(line)).value;
    Ratio(Agree(Mask(sel.value, n), Mask(causal, n)), n);
  }

  /** A selection of exactly the causal features scores ppv 1 and tpr 1. */
  lemma PerfectSelection(causal: seq<int>, n: nat)
    requires 0 < n && AllInBounds(causal, n)
    ensures LineScore(FormatInts(causal), Some(causal), n) == Success(TaskScore(1.0, 1))
  {
    FormatIntsRoundTrip(causal);
    assert ParseInts(Words(FormatInts(causal))) == Some(causal);
    var m := Mask(causal, n);
    assert Agree(m, m) == n;
    Ratio(n, n);
  }

  /** The selection of task `t`, or `None` where `selected[t]` raises IndexError. */
  function SelectionAt(selected: seq<seq<int>>, t: nat): Option<seq<int>> {
    if t < |selected| then Some(selected[t]) else None
  }

  /** The outcome of every causal line, in order: its score, or the error it raises. */
  function LineResults(lines: seq<string>, selected: seq<seq<int>>, n: nat): (rs: seq<Result<TaskScore, ScoreError>>)
    ensures |rs| == |lines|
  {
    seq(|lines|, t requires 0 <= t < |lines| => LineScore(lines[t], SelectionAt(selected, t), n))
  }

  /** The first `k` outcomes gathered into one list, or the first error among them. */
  function Collect<S, E>(rs: seq<Result<S, E>>, k: nat): (r: Result<seq<S>, E>)
    requires k <= |rs|
    ensures r.Success? ==> |r.value| == k
  {
    if k == 0 then Success([])
    else
      match Collect(rs, k - 1)
      case Failure(e) => Failure(e)
      case Success(done) =>
        match rs[k - 1]
        case Failure(e) => Failure(e)
        case Success(s) => Success(done + [s])
  }

  /** A successful gathering holds outcome `t` at position `t`. */
  lemma {:induction false} CollectAt<S, E>(rs: seq<Result<S, E>>, k: nat, t: nat)
    requires t < k <= |rs| && Collect(rs, k).Success?
    ensures rs[t] == Success(Collect(rs, k).value[t])
  {
    if t < k - 1 {
      CollectAt(rs, k - 1, t);
      var all := Collect(rs, k).value;
      assert all[..k - 1] == Collect(rs, k - 1).value;
      assert all[t] == all[..k - 1][t];
    }
  }

  /** Once an outcome is an error, later outcomes do not change the gathering. */
  lemma {:induction false} CollectFailurePersists<S, E>(rs: seq<Result<S, E>>, k: nat, m: nat)
    requires k <= m <= |rs| && Collect(rs, k).Failure?
    ensures Collect(rs, m) == Collect(rs, k)
    decreases m - k
  {
    if k < m {
      CollectFailurePersists(rs, k, m - 1);
    }
  }

  /** The scores of the first `k` causal lines, or the first error raised on them. */
  function ScoresUpTo(lines: seq<string>, selected: seq<seq<int>>, n: nat, k: nat): (r: Result<seq<TaskScore>, ScoreError>)
    requires k <= |lines|
    ensures r.Success? ==> |r.value| == k
  {
    Collect(LineResults(lines, selected, n), k)
  }

  /** On success there is a selection for every causal line, and score `t` is line `t` against selection `t`. */
  lemma ScoresUpToPerLine(lines: seq<string>, selected: seq<seq<int>>, n: nat, k: nat)
    requires k <= |lines| && ScoresUpTo(lines, selected, n, k).Success?
    ensures k <= |selected|
    ensures forall t :: 0 <= t < k ==>
              LineScore(lines[t], Some(selected[t]), n) == Success(ScoresUpTo(lines, selected, n, k).value[t])
  {
    if k > 0 {
      ScoresUpToAt(lines, selected, n, k, k - 1);
    }
    forall t | 0 <= t < k
      ensures LineScore(lines[t], Some(selected[t]), n) == Success(ScoresUpTo(lines, selected, n, k).value[t])
    {
      ScoresUpToAt(lines, selected, n, k, t);
    }
  }

  /** Score `t` of a successful run is line `t` scored against selection `t`. */
  lemma ScoresUpToAt(lines: seq<string>, selected: seq<seq<int>>, n: nat, k: nat, t: nat)
    requires t < k <= |lines| && ScoresUpTo(lines, selected, n, k).Success?
    ensures t < |selected|
    ensures LineScore(lines[t], Some(selected[t]), n) == Success(ScoresUpTo(lines, selected, n, k).value[t])
  {
    CollectAt(LineResults(lines, selected, n), k, t);
    LineScoreNeedsSelection(lines[t], SelectionAt(selected, t), n);
  }

  /** A line scores only against a selection that exists. */
  lemma LineScoreNeedsSelection(line: string, sel: Option<seq<int>>, n: nat)
    requires LineScore(line, sel, n).Success?
    ensures sel.Some?
  {
  }

  /** Mark every listed index of `a` True, in order; false when an index raises IndexError. */
  method Mark(a: array<bool>, idxs: seq<int>) returns (ok: bool)
    requires a[..] == seq(a.Length, _ => false)
    modifies a
    ensures ok <==> AllInBounds(idxs, a.Length)
    ensures ok ==> a[..] == Mask(idxs, a.Length)
  {
    var k := 0;
    while k < |idxs|
      invariant 0 <= k <= |idxs| && AllInBounds(idxs[..k], a.Length)
      invariant a[..] == Mask(idxs[..k], a.Length)
    {
      if !InBounds(idxs[k], a.Length) {
        assert !AllInBounds(idxs, a.Length);
        return false;
      }
      assert idxs[..k + 1][..k] == idxs[..k];
      a[Position(idxs[k], a.Length)] := true;
      k := k + 1;
    }
    assert idxs[..k] == idxs;
    return true;
  }

  /** The counting loop: the number of positions where the two lists agree. */
  method CountAgree(yPred: array<bool>, yTrue: array<bool>) returns (count: nat)
    requires yPred.Length == yTrue.Length
    ensures count == Agree(yPred[..], yTrue[..])
  {
    count := 0;
    var i := 0;
    while i < yPred.Length
      invariant 0 <= i <= yPred.Length
      invariant count == Agree(yPred[..i], yTrue[..i])
    {
      assert yPred[..i + 1][..i] == yPred[..i] && yTrue[..i + 1][..i] == yTrue[..i];
      if yPred[i] == yTrue[i] {
        count := count + 1;
      }
      i := i + 1;
    }
    assert yPred[..i] == yPred[..] && yTrue[..i] == yTrue[..];
  }

  /** The body of the per-line loop of `compute_ppv_sensitivity`. */
  method ScoreLine(line: string, sel: Option<seq<int>>, n: nat) returns (r: Result<TaskScore, ScoreError>)
    ensures r == LineScore(line, sel, n)
  {
    var yTrue := new bool[n](_ => false);
    var yPred := new bool[n](_ => false);
    assert yTrue[..] == seq(n, _ => false) && yPred[..] == seq(n, _ => false);
    var parsed := ParseInts(Words(line));
    if parsed.None? {
      return Failure(ValueError);
    }
    var ok := Mark(yTrue, parsed.value);
    if !ok || sel.None? {
      return Failure(IndexError);
    }
    ok := Mark(yPred, sel.value);
    if !ok {
      return Failure(IndexError);
    }
    if n == 0 {
      return Failure(NoFeatures);
    }
    var countTpr := CountAgree(yPred, yTrue);
    return Success(TaskScore(countTpr as real / n as real, countTpr / n));
  }

  /** Once a line has raised, later lines change nothing: the first error is the result. */
  lemma FailurePersists(lines: seq<string>, selected: seq<seq<int>>, n: nat, k: nat, m: nat)
    requires k <= m <= |lines| && ScoresUpTo(lines, selected, n, k).Failure?
    ensures ScoresUpTo(lines, selected, n, m) == ScoresUpTo(lines, selected, n, k)
  {
    CollectFailurePersists(LineResults(lines, selected, n), k, m);
  }

  /** The two result lists read side by side. */
  function Zip(ppvList: seq<real>, tprList: seq<int>): (r: seq<TaskScore>)
    requires |ppvList| == |tprList|
    ensures |r| == |ppvList| && forall t :: 0 <= t < |r| ==> r[t] == TaskScore(ppvList[t], tprList[t])
  {
    seq(|ppvList|, t requires 0 <= t < |ppvList| => TaskScore(ppvList[t], tprList[t]))
  }

  /** A line that scores extends both result lists. */
  lemma ScoresUpToSuccessStep(lines: seq<string>, selected: seq<seq<int>>, n: nat, k: nat,
                              ppvList: seq<real>, tprList: seq<int>, score: TaskScore)
    requires k < |lines| && |ppvList| == |tprList|
    requires ScoresUpTo(lines, selected, n, k) == Success(Zip(ppvList, tprList))
    requires LineScore(lines[k], SelectionAt(selected, k), n) == Success(score)
    ensures ScoresUpTo(lines, selected, n, k + 1) == Success(Zip(ppvList + [score.ppv], tprList + [score.tpr]))
  {
    assert Zip(ppvList + [score.ppv], tprList + [score.tpr]) == Zip(ppvList, tprList) + [score];
  }

  /** A line that raises makes its error the result of the whole run. */
  lemma ScoresUpToFailureStep(lines: seq<string>, selected: seq<seq<int>>, n: nat, k: nat, e: ScoreError)
    requires k < |lines| && ScoresUpTo(lines, selected, n, k).Success?
    requires LineScore(lines[k], SelectionAt(selected, k), n) == Failure(e)
    ensures ScoresUpTo(lines, selected, n, |lines|) == Failure(e)
  {
    FailurePersists(lines, selected, n, k + 1, |lines|);
  }

  /**
    `compute_ppv_sensitivity` over the text of the causal file: one ppv and one tpr per
    line, in order, or the first error raised.
  */
  method PpvSensitivity(causalText: string, selected: seq<seq<int>>, n: nat)
    returns (r: Result<(seq<real>, seq<int>), ScoreError>)
    ensures var lines := FileLines(causalText);
      var spec := ScoresUpTo(lines, selected, n, |lines|);
      (r.Failure? ==> spec == Failure(r.error)) &&
      (r.Success? ==> |r.value.0| == |r.value.1| && spec == Success(Zip(r.value.0, r.value.1)))
  {
    r := ScoreLines(FileLines(causalText), selected, n);
  }

  /** The loop of `compute_ppv_sensitivity` over the lines of the causal-features file. */
  method ScoreLines(lines: seq<string>, selected: seq<seq<int>>, n: nat)
    returns (r: Result<(seq<real>, seq<int>), ScoreError>)
    ensures var spec := ScoresUpTo(lines, selected, n, |lines|);
      (r.Failure? ==> spec == Failure(r.error)) &&
      (r.Success? ==> |r.value.0| == |r.value.1| && spec == Success(Zip(r.value.0, r.value.1)))
  {
    var ppvList: seq<real> := [];
    var tprList: seq<int> := [];
    var lineIdx := 0;
    while lineIdx < |lines|
      invariant 0 <= lineIdx <= |lines| && |ppvList| == |tprList|
      invariant ScoresUpTo(lines, selected, n, lineIdx) == Success(Zip(ppvList, tprList))
    {
      var score := ScoreLine(lines[lineIdx], SelectionAt(selected, lineIdx), n);
      if score.Failure? {
        ScoresUpToFailureStep(lines, selected, n, lineIdx, score.error);
        return Failure(score.error);
      }
      ScoresUpToSuccessStep(lines, selected, n, lineIdx, ppvList, tprList, score.value);
      ppvList := ppvList + [score.value.ppv];
      tprList := tprList + [score.value.tpr];
      lineIdx := lineIdx + 1;
    }
    return Success((ppvList, tprList));
  }

  /** `[y_pred[i] for i in indices]`: an IndexError (`None`) as soon as one index is out of range. */
  function Reorder(yPred: seq<real>, indices: seq<int>): (r: Option<seq<real>>)
    ensures r.Some? <==> AllInBounds(indices, |yPred|)
    ensures r.Some? ==> (|r.value| == |indices| &&
              forall j :: 0 <= j < |indices| ==> r.value[j] == yPred[Position(indices[j], |yPred|)])
  {
    if AllInBounds(indices, |yPred|) then
      Some(seq(|indices|, j requires 0 <= j < |indices| => yPred[Position(indices[j], |yPred|)]))
    else None
  }

  /** The test indices of every fold, one after the other. */
  function FlatTest(folds: seq<FoldIndices>): seq<int> {
    if folds == [] then [] else FlatTest(folds[..|folds| - 1]) + folds[|folds| - 1].teIndices
  }

  /** Reading predictions through 0, 1, ..., n - 1 leaves them in place. */
  lemma ReorderIdentity(yPred: seq<real>)
    ensures Reorder(yPred, Range(0, |yPred|)) == Some(yPred)
  {
    var idx := Range(0, |yPred|);
    assert AllInBounds(idx, |yPred|);
    assert Reorder(yPred, idx).value == yPred;
  }

  /**
    With the test blocks `compute_indices` produces, the flattened test indices are
    0, 1, ..., n - 1, so re-ordering n predictions leaves them unchanged.
  */
  lemma {:induction false} ReorderComputedFolds(folds: seq<FoldIndices>, n: nat, yPred: seq<real>)
    requires 0 < |folds| && |yPred| == n
    requires forall i :: 0 <= i < |folds| ==> folds[i].teIndices == TestBlock(n, |folds|, i)
    ensures FlatTest(folds) == Range(0, n)
    ensures Reorder(yPred, FlatTest(folds)) == Some(yPred)
  {
    FlatTestIsBlocks(folds, n, |folds|);
    assert folds[..|folds|] == folds;
    TestBlocksConcatenate(n, |folds|);
    ReorderIdentity(yPred);
  }

  lemma {:induction false} FlatTestIsBlocks(folds: seq<FoldIndices>, n: nat, k: nat)
    requires 0 < |folds| && k <= |folds|
    requires forall i :: 0 <= i < |folds| ==> folds[i].teIndices == TestBlock(n, |folds|, i)
    ensures FlatTest(folds[..k]) == Blocks(n, |folds|, k)
  {
    if k > 0 {
      FlatTestIsBlocks(folds, n, k - 1);
      assert folds[..k][..k - 1] == folds[..k - 1];
    }
  }

  /** `row[t::k]`: the elements at t, t + k, t + 2k, ... */
  function StrideSlice(row: seq<real>, t: nat, k: nat): seq<real>
    requires k > 0
    decreases |row| - t
  {
    if t >= |row| then [] else [row[t]] + StrideSlice(row, t + k, k)
  }

  /** Element `j` of `row[t::k]` is `row[t + j k]`. */
  lemma {:induction false} StrideIndex(row: seq<real>, t: nat, k: nat, j: nat)
    requires k > 0 && j < |StrideSlice(row, t, k)|
    ensures t + j * k < |row| && StrideSlice(row, t, k)[j] == row[t + j * k]
    decreases j
  {
    if j > 0 {
      StrideIndex(row, t + k, k, j - 1);
      assert t + k + (j - 1) * k == t + j * k;
    }
  }

  /** `row[t::k]` has `c` elements when the last of them, t + (c - 1) k, is in the row and the next is not. */
  lemma {:induction false} StrideCount(row: seq<real>, t: nat, k: nat, c: nat)
    requires k > 0
    requires c == 0 ==> t >= |row|
    requires c > 0 ==> t + (c - 1) * k < |row| <= t + c * k
    ensures |StrideSlice(row, t, k)| == c
    decreases c
  {
    if c > 0 {
      assert t + (c - 1) * k >= t;
      if c == 1 {
        StrideCount(row, t + k, k, 0);
      } else {
        assert (c - 1) * k == (c - 2) * k + k;
        assert c * k == (c - 1) * k + k;
        StrideCount(row, t + k, k, c - 1);
      }
    }
  }

  /** The per-task slices of a row of fold-major, task-minor values. */
  function TaskSlices(row: seq<real>, numTasks: nat): (r: seq<seq<real>>)
    requires numTasks > 0
    ensures |r| == numTasks && forall t :: 0 <= t < numTasks ==> r[t] == StrideSlice(row, t, numTasks)
  {
    seq(numTasks, t requires 0 <= t < numTasks => StrideSlice(row, t, numTasks))
  }

  /**
    For a row of `numTasks * numFolds` values, every slice holds `numFolds` values, and
    value `p` of the row is element `p / numTasks` of slice `p % numTasks`: the slices
    partition the row.
  */
  lemma TaskSlicesPartition(row: seq<real>, numTasks: nat, numFolds: nat)
    requires numTasks > 0 && |row| == numTasks * numFolds
    ensures forall t :: 0 <= t < numTasks ==> |TaskSlices(row, numTasks)[t]| == numFolds
    ensures forall p :: 0 <= p < |row| ==>
              p % numTasks < numTasks && p / numTasks < numFolds &&
              TaskSlices(row, numTasks)[p % numTasks][p / numTasks] == row[p]
  {
    var slices := TaskSlices(row, numTasks);
    forall t | 0 <= t < numTasks ensures |slices[t]| == numFolds {
      SliceLength(row, t, numTasks, numFolds);
    }
    forall p | 0 <= p < |row|
      ensures p % numTasks < numTasks && p / numTasks < numFolds && slices[p % numTasks][p / numTasks] == row[p]
    {
      SliceElement(row, numTasks, numFolds, p);
    }
  }

  lemma SliceElement(row: seq<real>, k: nat, f: nat, p: nat)
    requires k > 0 && |row| == k * f && p < |row|
    ensures p % k < k && p / k < f
    ensures p / k < |StrideSlice(row, p % k, k)| && StrideSlice(row, p % k, k)[p / k] == row[p]
  {
    var t, j := p % k, p / k;
    assert t + j * k == p;
    DivBelow(p, k, f);
    SliceLength(row, t, k, f);
    StrideIndex(row, t, k, j);
  }

  lemma DivBelow(p: nat, k: nat, f: nat)
    requires k > 0 && p < k * f
    ensures p / k < f
  {
    assert (p / k) * k <= p;
    if p / k >= f {
      MulMono(f, p / k, k);
    }
  }

  lemma MulMono(a: nat, b: nat, k: nat)
    requires a <= b
    ensures a * k <= b * k
  {
  }

  lemma SliceLength(row: seq<real>, t: nat, k: nat, f: nat)
    requires k > 0 && t < k && |row| == k * f
    ensures |StrideSlice(row, t, k)| == f
  {
    if f > 0 {
      assert (f - 1) * k + k == k * f;
    }
    StrideCount(row, t, k, f);
  }

  /** The worked example: four values and two tasks. */
  lemma TaskSlicesExample()
    ensures TaskSlices([0.1, 0.2, 0.3, 0.4], 2) == [[0.1, 0.3], [0.2, 0.4]]
  {
    var row := [0.1, 0.2, 0.3, 0.4];
    assert StrideSlice(row, 4, 2) == [];
    assert StrideSlice(row, 5, 2) == [];
    assert StrideSlice(row, 2, 2) == [0.3];
    assert StrideSlice(row, 3, 2) == [0.4];
    assert StrideSlice(row, 0, 2) == [0.1, 0.3];
    assert StrideSlice(row, 1, 2) == [0.2, 0.4];
  }
}

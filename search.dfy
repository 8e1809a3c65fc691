/**
  The hyperparameter choice of `get_optimal_parameters_from_dict`
  (code/evaluation_framework.py): a running maximum, with a strict comparison, of the
  k-way consistency index over every (grid point, task) pair, starting from `''` and 0.
  A Python dict is modelled as the sequence of its entries in iteration order.
*/
module Search {
  import opened Stability

  /** One dict entry: a grid point and, per task, the selection list of every subsample. */
  type Entry = (string, seq<seq<seq<int>>>)

  /**
    Scoring the tasks of an entry raises no ZeroDivisionError: each has at least two
    selection lists, and the number of features is not 0 once there is a task to score.
  */
  predicate TasksScorable(lists: seq<seq<seq<int>>>, n: int) {
    forall t :: 0 <= t < |lists| ==> n != 0 && |lists[t]| >= 2
  }

  predicate Scorable(entries: seq<Entry>, n: int) {
    forall i :: 0 <= i < |entries| ==> TasksScorable(entries[i].1, n)
  }

  /** The scores of one entry, one per task in order, each tagged with the entry's grid point. */
  function TaskScores(params: string, lists: seq<seq<seq<int>>>, n: int): (r: seq<(string, real)>)
    requires TasksScorable(lists, n)
    ensures |r| == |lists| && forall t :: 0 <= t < |lists| ==> r[t] == (params, KIndex(lists[t], n))
  {
    seq(|lists|, t requires 0 <= t < |lists| => (params, KIndex(lists[t], n)))
  }

  /** All (grid point, score) pairs in the order the nested loop visits them. */
  function Scores(entries: seq<Entry>, n: int): seq<(string, real)>
    requires Scorable(entries, n)
  {
    if entries == [] then []
    else
      var last := entries[|entries| - 1];
      Scores(entries[..|entries| - 1], n) + TaskScores(last.0, last.1, n)
  }

  /** The scores are exactly the k-way indices of every (grid point, task) pair. */
  lemma ScoresMembers(entries: seq<Entry>, n: int)
    requires Scorable(entries, n)
    ensures forall i, t :: 0 <= i < |entries| && 0 <= t < |entries[i].1| ==>
              (entries[i].0, KIndex(entries[i].1[t], n)) in Scores(entries, n)
    ensures forall k :: 0 <= k < |Scores(entries, n)| ==> PairScore(entries, n, Scores(entries, n)[k])
  {
    ScoresCover(entries, n);
    ScoresFromPairs(entries, n);
  }

  /** Every (grid point, task) pair is scored. */
  lemma {:induction false} ScoresCover(entries: seq<Entry>, n: int)
    requires Scorable(entries, n)
    ensures forall i, t :: 0 <= i < |entries| && 0 <= t < |entries[i].1| ==>
              (entries[i].0, KIndex(entries[i].1[t], n)) in Scores(entries, n)
  {
    if entries != [] {
      var m := |entries| - 1;
      var front := entries[..m];
      ScoresCover(front, n);
      var fs := Scores(front, n);
      var ts := TaskScores(entries[m].0, entries[m].1, n);
      var r := fs + ts;
      assert r == Scores(entries, n);
      forall i, t | 0 <= i < |entries| && 0 <= t < |entries[i].1|
        ensures (entries[i].0, KIndex(entries[i].1[t], n)) in r
      {
        if i == m {
          assert r[|fs| + t] == ts[t];
        } else {
          assert front[i] == entries[i];
          assert (front[i].0, KIndex(front[i].1[t], n)) in fs;
        }
      }
    }
  }

  /** `x` is the score of some (grid point, task) pair. */
  ghost predicate PairScore(entries: seq<Entry>, n: int, x: (string, real))
    requires Scorable(entries, n)
  {
    exists i, t :: 0 <= i < |entries| && 0 <= t < |entries[i].1| && x == (entries[i].0, KIndex(entries[i].1[t], n))
  }

  lemma PairScorePrefix(entries: seq<Entry>, m: nat, n: int, x: (string, real))
    requires Scorable(entries, n) && m <= |entries| && PairScore(entries[..m], n, x)
    ensures PairScore(entries, n, x)
  {
    var front := entries[..m];
    var i, t :| 0 <= i < |front| && 0 <= t < |front[i].1| && x == (front[i].0, KIndex(front[i].1[t], n));
    assert front[i] == entries[i];
  }

  /** Every score is that of some (grid point, task) pair. */
  lemma {:induction false} ScoresFromPairs(entries: seq<Entry>, n: int)
    requires Scorable(entries, n)
    ensures forall k :: 0 <= k < |Scores(entries, n)| ==> PairScore(entries, n, Scores(entries, n)[k])
  {
    if entries != [] {
      var m := |entries| - 1;
      var front := entries[..m];
      ScoresFromPairs(front, n);
      var fs := Scores(front, n);
      var ts := TaskScores(entries[m].0, entries[m].1, n);
      var r := Scores(entries, n);
      assert r == fs + ts;
      forall k | 0 <= k < |r| ensures PairScore(entries, n, r[k]) {
        if k < |fs| {
          assert r[k] == fs[k];
          PairScorePrefix(entries, m, n, fs[k]);
        } else {
          var t := k - |fs|;
          assert r[k] == ts[t];
          assert r[k] == (entries[m].0, KIndex(entries[m].1[t], n));
        }
      }
    }
  }

  /** `Scores` grows by one entry's task scores per entry. */
  lemma ScoresStep(entries: seq<Entry>, i: nat, n: int)
    requires Scorable(entries, n) && i < |entries|
    ensures Scores(entries[..i + 1], n) == Scores(entries[..i], n) + TaskScores(entries[i].0, entries[i].1, n)
  {
    assert entries[..i + 1][..i] == entries[..i];
  }

  /**
    The running maximum after visiting `scores` in order from `start`: it moves to a later
    pair only when that pair's score is strictly larger than the current one. The result is
    `start` or the first pair that attains the largest score, which then beats `start`.
  */
  function PickFrom(start: (string, real), scores: seq<(string, real)>): (r: (string, real))
    ensures r.1 >= start.1
    ensures forall k :: 0 <= k < |scores| ==> scores[k].1 <= r.1
    ensures r == start || exists k :: (0 <= k < |scores| && r == scores[k] && r.1 > start.1 &&
              forall j :: 0 <= j < k ==> scores[j].1 < r.1)
    ensures (forall k :: 0 <= k < |scores| ==> scores[k].1 <= start.1) ==> r == start
  {
    if scores == [] then start
    else
      var front := scores[..|scores| - 1];
      var best := PickFrom(start, front);
      var last := scores[|scores| - 1];
      assert forall k :: 0 <= k < |front| ==> scores[k] == front[k];
      if last.1 > best.1 then last else best
  }

  /** Visiting `a` then `b` is visiting `a + b`. */
  lemma {:induction false} PickFromAppend(start: (string, real), a: seq<(string, real)>, b: seq<(string, real)>)
    ensures PickFrom(start, a + b) == PickFrom(PickFrom(start, a), b)
  {
    if b == [] {
      assert a + b == a;
    } else {
      var b', x := b[..|b| - 1], b[|b| - 1];
      PickFromAppend(start, a, b');
      SplitLast(a, b);
      PickFromSnoc(start, a + b', x);
      PickFromSnoc(PickFrom(start, a), b', x);
    }
  }

  lemma SplitLast<T>(a: seq<T>, b: seq<T>)
    requires b != []
    ensures b == b[..|b| - 1] + [b[|b| - 1]] && a + b == (a + b[..|b| - 1]) + [b[|b| - 1]]
  {
  }

  /** One more score: keep the running maximum unless the new score is strictly larger. */
  lemma PickFromSnoc(start: (string, real), s: seq<(string, real)>, x: (string, real))
    ensures var best := PickFrom(start, s); PickFrom(start, s + [x]) == if x.1 > best.1 then x else best
  {
    assert (s + [x])[..|s|] == s;
  }

  /** The choice of `get_optimal_parameters_from_dict`: the running maximum from ("", 0). */
  function Pick(scores: seq<(string, real)>): (string, real) {
    PickFrom(("", 0.0), scores)
  }

  /** The inner loop: visit the tasks of one grid point, updating the running maximum. */
  method ScanTasks(params: string, lists: seq<seq<seq<int>>>, n: int, optParams0: string, optCindex0: real)
    returns (optParams: string, optCindex: real)
    requires TasksScorable(lists, n)
    ensures (optParams, optCindex) == PickFrom((optParams0, optCindex0), TaskScores(params, lists, n))
  {
    optParams, optCindex := optParams0, optCindex0;
    var t := 0;
    while t < |lists|
      invariant 0 <= t <= |lists|
      invariant (optParams, optCindex) == PickFrom((optParams0, optCindex0), TaskScores(params, lists, n)[..t])
    {
      var cidx := ConsistencyIndexK(lists[t], n);
      ScanStep((optParams0, optCindex0), params, lists, n, t);
      if cidx > optCindex {
        optCindex := cidx;
        optParams := params;
      }
      t := t + 1;
    }
    TakeAll(TaskScores(params, lists, n));
  }

  /** One more task: the running maximum moves to this grid point exactly when the task scores strictly higher. */
  lemma ScanStep(start: (string, real), params: string, lists: seq<seq<seq<int>>>, n: int, t: nat)
    requires TasksScorable(lists, n) && t < |lists|
    ensures var scores := TaskScores(params, lists, n);
      var best := PickFrom(start, scores[..t]);
      PickFrom(start, scores[..t + 1]) == if KIndex(lists[t], n) > best.1 then (params, KIndex(lists[t], n)) else best
  {
    var scores := TaskScores(params, lists, n);
    TakeSnoc(scores, t);
    PickFromSnoc(start, scores[..t], scores[t]);
  }

  /**
    `get_optimal_parameters_from_dict`: the nested loop over grid points and their tasks,
    keeping the grid point of the largest k-way consistency index seen so far.
  */
  method OptimalParameters(entries: seq<Entry>, n: int) returns (optParams: string)
    requires Scorable(entries, n)
    ensures optParams == Pick(Scores(entries, n)).0
  {
    optParams := "";
    var optCindex := 0.0;
    var i := 0;
    while i < |entries|
      invariant 0 <= i <= |entries|
      invariant (optParams, optCindex) == Pick(Scores(entries[..i], n))
    {
      var (params, lists) := entries[i];
      assert TasksScorable(lists, n);
      optParams, optCindex := ScanTasks(params, lists, n, optParams, optCindex);
      ScoresStep(entries, i, n);
      PickFromAppend(("", 0.0), Scores(entries[..i], n), TaskScores(params, lists, n));
      i := i + 1;
    }
    assert entries[..i] == entries;
  }

  /** No member of a score list lies above the one `Pick` chooses. */
  lemma PickAbove(s: seq<(string, real)>, x: (string, real))
    requires x in s
    ensures x.1 <= Pick(s).1
  {
    var k :| 0 <= k < |s| && s[k] == x;
  }

  /** No (grid point, task) pair scores above the chosen score; if none scores above 0, `''` is chosen. */
  lemma OptimalIsMaximal(entries: seq<Entry>, n: int)
    requires Scorable(entries, n)
    ensures var best := Pick(Scores(entries, n));
      (forall i, t :: 0 <= i < |entries| && 0 <= t < |entries[i].1| ==> KIndex(entries[i].1[t], n) <= best.1) &&
      ((forall i, t :: 0 <= i < |entries| && 0 <= t < |entries[i].1| ==> KIndex(entries[i].1[t], n) <= 0.0) ==>
        best == ("", 0.0))
  {
    var s := Scores(entries, n);
    var best := Pick(s);
    ScoresMembers(entries, n);
    forall i, t | 0 <= i < |entries| && 0 <= t < |entries[i].1|
      ensures KIndex(entries[i].1[t], n) <= best.1
    {
      PickAbove(s, (entries[i].0, KIndex(entries[i].1[t], n)));
    }
    if forall i, t :: 0 <= i < |entries| && 0 <= t < |entries[i].1| ==> KIndex(entries[i].1[t], n) <= 0.0 {
      forall k | 0 <= k < |s| ensures s[k].1 <= 0.0 {
        var i, t :| 0 <= i < |entries| && 0 <= t < |entries[i].1| && s[k] == (entries[i].0, KIndex(entries[i].1[t], n));
      }
    }
  }

  /** A chosen grid point other than the start value is a key one of whose tasks attains the chosen score, above 0. */
  lemma OptimalIsAttained(entries: seq<Entry>, n: int)
    requires Scorable(entries, n)
    ensures var best := Pick(Scores(entries, n));
      best == ("", 0.0) ||
        exists i, t :: 0 <= i < |entries| && 0 <= t < |entries[i].1| &&
          best.0 == entries[i].0 && best.1 == KIndex(entries[i].1[t], n) && best.1 > 0.0
  {
    var s := Scores(entries, n);
    var best := Pick(s);
    ScoresMembers(entries, n);
    if best != ("", 0.0) {
      var k :| 0 <= k < |s| && best == s[k] && best.1 > 0.0;
      var i, t :| 0 <= i < |entries| && 0 <= t < |entries[i].1| && s[k] == (entries[i].0, KIndex(entries[i].1[t], n));
    }
  }

  /**
    Ties keep the first pair in iteration order: the pick is the first pair whose score is
    above the start and above every earlier score, when no later score exceeds it; a later
    pair with an equal score never wins.
  */
  lemma FirstMaximumWins(start: (string, real), scores: seq<(string, real)>, k: nat)
    requires k < |scores| && scores[k].1 > start.1
    requires forall j :: 0 <= j < k ==> scores[j].1 < scores[k].1
    requires forall j :: k < j < |scores| ==> scores[j].1 <= scores[k].1
    ensures PickFrom(start, scores) == scores[k]
  {
    var before, x, rest := scores[..k], scores[k], scores[k + 1..];
    forall j | 0 <= j < |rest| ensures rest[j].1 <= x.1 {
      assert rest[j] == scores[k + 1 + j];
    }
    assert PickFrom(x, rest) == x;
    PickFromBelow(start, before, x.1);
    PickFromSnoc(start, before, x);
    PickFromAppend(start, before + [x], rest);
    SplitAt(scores, k);
  }

  lemma SplitAt<T>(s: seq<T>, k: nat)
    requires k < |s|
    ensures s == s[..k] + [s[k]] + s[k + 1..]
  {
  }

  /** A running maximum started below `v` over scores all below `v` stays below `v`. */
  lemma PickFromBelow(start: (string, real), scores: seq<(string, real)>, v: real)
    requires start.1 < v && forall j :: 0 <= j < |scores| ==> scores[j].1 < v
    ensures PickFrom(start, scores).1 < v
  {
  }
}

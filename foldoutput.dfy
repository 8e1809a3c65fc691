/**
  The end of `run_fold` (code/synthetic_data_experiments.py): after the search, choose
  each algorithm's grid point with `get_optimal_parameters_from_dict`, write the three
  parameter files, rerun the three solvers on the whole training set at the chosen points,
  and write the three selected-features files. A Python 2 dict is visited in an order the
  language does not fix; here that order is an input, one per algorithm.
*/
module FoldOutput {
  import opened Wrappers
  import opened Text
  import opened Files
  import opened Experiments
  import opened Fold
  import Search
  import Stability

  // ---------------------------------------------------------------------------
  // Choosing the parameters

  /** `order` visits every grid point once: the keys of a dict built from the grid. */
  predicate OrderFits(order: seq<string>, grid: seq<string>) {
    Distinct(order) && (forall i :: 0 <= i < |order| ==> order[i] in grid) &&
    forall j :: 0 <= j < |grid| ==> grid[j] in order
  }

  predicate OrdersFit(orders: PerAlgo<seq<string>>, grids: PerAlgo<seq<string>>) {
    OrderFits(orders.st, grids.st) && OrderFits(orders.np, grids.np) && OrderFits(orders.ms, grids.ms)
  }

  /** Every point of `order` is a key of the archive. */
  predicate Keyed(lists: Lists, order: seq<string>) {
    forall i :: 0 <= i < |order| ==> order[i] in lists
  }

  predicate AllKeyed(lists: PerAlgo<Lists>, orders: PerAlgo<seq<string>>) {
    Keyed(lists.st, orders.st) && Keyed(lists.np, orders.np) && Keyed(lists.ms, orders.ms)
  }

  /** An archive shaped for a grid has a key for every point a visiting order of that grid lists. */
  lemma ShapedKeyed(lists: Lists, grid: seq<string>, numTasks: nat, order: seq<string>)
    requires Shaped(lists, grid, numTasks) && OrderFits(order, grid)
    ensures Keyed(lists, order)
  {
    forall i | 0 <= i < |order| ensures order[i] in lists {
      assert order[i] in grid;
      var j :| 0 <= j < |grid| && grid[j] == order[i];
    }
  }

  /** The archive's items in the dict's visiting order. */
  function Entries(lists: Lists, order: seq<string>): (r: seq<Search.Entry>)
    requires Keyed(lists, order)
    ensures |r| == |order| && forall i :: 0 <= i < |order| ==> r[i].0 == order[i] && r[i].1 == lists[order[i]]
  {
    seq(|order|, i requires 0 <= i < |order| => (order[i], lists[order[i]]))
  }

  /** Scoring an archive raises no ZeroDivisionError. */
  predicate ScorableFor(lists: Lists, order: seq<string>, numFeatures: int)
    requires Keyed(lists, order)
  {
    Search.Scorable(Entries(lists, order), numFeatures)
  }

  predicate AllScorable(lists: PerAlgo<Lists>, orders: PerAlgo<seq<string>>, numFeatures: int)
    requires AllKeyed(lists, orders)
  {
    ScorableFor(lists.st, orders.st, numFeatures) && ScorableFor(lists.np, orders.np, numFeatures) &&
    ScorableFor(lists.ms, orders.ms, numFeatures)
  }

  /** The grid point `get_optimal_parameters_from_dict` returns for one archive. */
  function Best(lists: Lists, order: seq<string>, numFeatures: int): string
    requires Keyed(lists, order) && ScorableFor(lists, order, numFeatures)
  {
    Search.Pick(Search.Scores(Entries(lists, order), numFeatures)).0
  }

  function Chosen(lists: PerAlgo<Lists>, orders: PerAlgo<seq<string>>, numFeatures: int): PerAlgo<string>
    requires AllKeyed(lists, orders) && AllScorable(lists, orders, numFeatures)
  {
    PerAlgo(Best(lists.st, orders.st, numFeatures), Best(lists.np, orders.np, numFeatures),
            Best(lists.ms, orders.ms, numFeatures))
  }

  /**
    The chosen grid point of an archive has the largest k-way consistency index over every
    (grid point, task) pair; it is `''` when no pair scores above 0, and otherwise a point
    one of whose tasks attains that index.
  */
  lemma BestIsOptimal(lists: Lists, order: seq<string>, numFeatures: int)
    requires Keyed(lists, order) && ScorableFor(lists, order, numFeatures)
    ensures var best := Search.Pick(Search.Scores(Entries(lists, order), numFeatures));
      Best(lists, order, numFeatures) == best.0 &&
      (forall i, t :: 0 <= i < |order| && 0 <= t < |lists[order[i]]| ==>
         Stability.KIndex(lists[order[i]][t], numFeatures) <= best.1) &&
      (best == ("", 0.0) ||
         exists i, t :: 0 <= i < |order| && 0 <= t < |lists[order[i]]| &&
           best.0 == order[i] && best.1 == Stability.KIndex(lists[order[i]][t], numFeatures) && best.1 > 0.0)
  {
    var entries := Entries(lists, order);
    var best := Search.Pick(Search.Scores(entries, numFeatures));
    Search.OptimalIsMaximal(entries, numFeatures);
    Search.OptimalIsAttained(entries, numFeatures);
    forall i, t | 0 <= i < |order| && 0 <= t < |lists[order[i]]|
      ensures Stability.KIndex(lists[order[i]][t], numFeatures) <= best.1
    {
      assert entries[i].1 == lists[order[i]];
    }
    if best != ("", 0.0) {
      var i, t :| 0 <= i < |entries| && 0 <= t < |entries[i].1| &&
        best.0 == entries[i].0 && best.1 == Stability.KIndex(entries[i].1[t], numFeatures) && best.1 > 0.0;
      assert best.0 == order[i] && entries[i].1 == lists[order[i]];
    }
  }

  /** The three calls of `get_optimal_parameters_from_dict`; ZeroDivisionError when an archive cannot be scored. */
  method ChooseParameters(lists: PerAlgo<Lists>, orders: PerAlgo<seq<string>>, numFeatures: int)
    returns (r: Result<PerAlgo<string>, FoldError>)
    requires AllKeyed(lists, orders)
    ensures r.Success? <==> AllScorable(lists, orders, numFeatures)
    ensures r.Success? ==> r.value == Chosen(lists, orders, numFeatures)
    ensures r.Failure? ==> r.error == ZeroDivisionError
  {
    var st := Entries(lists.st, orders.st);
    var np := Entries(lists.np, orders.np);
    var ms := Entries(lists.ms, orders.ms);
    if !Search.Scorable(st, numFeatures) || !Search.Scorable(np, numFeatures) || !Search.Scorable(ms, numFeatures) {
      return Failure(ZeroDivisionError);
    }
    var optSt := Search.OptimalParameters(st, numFeatures);
    var optNp := Search.OptimalParameters(np, numFeatures);
    var optMs := Search.OptimalParameters(ms, numFeatures);
    return Success(PerAlgo(optSt, optNp, optMs));
  }

  // ---------------------------------------------------------------------------
  // The files a fold writes

  /** The files after writing the three parameter files, single-task first. */
  function ParameterWrites(files: map<string, string>, resuDir: string, simuId: string, foldIdx: int, opt: PerAlgo<string>)
    : map<string, string>
  {
    files[ParametersFile(resuDir, simuId, St, foldIdx) := opt.st]
         [ParametersFile(resuDir, simuId, MsfanNp, foldIdx) := opt.np]
         [ParametersFile(resuDir, simuId, Msfan, foldIdx) := opt.ms]
  }

  function ParameterTrace(resuDir: string, simuId: string, foldIdx: int): seq<Event> {
    [Wrote(ParametersFile(resuDir, simuId, St, foldIdx)), Wrote(ParametersFile(resuDir, simuId, MsfanNp, foldIdx)),
     Wrote(ParametersFile(resuDir, simuId, Msfan, foldIdx))]
  }

  /** `with open(fname, 'w') as f: f.write(opt_params)` for each algorithm. */
  method WriteParameters(fs: FileStore, resuDir: string, simuId: string, foldIdx: int, opt: PerAlgo<string>)
    modifies fs
    ensures fs.files == ParameterWrites(old(fs.files), resuDir, simuId, foldIdx, opt)
    ensures fs.trace == old(fs.trace) + ParameterTrace(resuDir, simuId, foldIdx)
  {
    fs.Write(ParametersFile(resuDir, simuId, St, foldIdx), opt.st);
    fs.Write(ParametersFile(resuDir, simuId, MsfanNp, foldIdx), opt.np);
    fs.Write(ParametersFile(resuDir, simuId, Msfan, foldIdx), opt.ms);
  }

  /** The files after writing the three selected-features files, single-task first. */
  function SelectionWrites(files: map<string, string>, resuDir: string, simuId: string, foldIdx: int,
                           sels: PerAlgo<seq<seq<int>>>): map<string, string>
  {
    files[SelectedFeaturesFile(resuDir, simuId, St, foldIdx) := LinesText(SelectionLines(sels.st))]
         [SelectedFeaturesFile(resuDir, simuId, MsfanNp, foldIdx) := LinesText(SelectionLines(sels.np))]
         [SelectedFeaturesFile(resuDir, simuId, Msfan, foldIdx) := LinesText(SelectionLines(sels.ms))]
  }

  function SelectionTrace(resuDir: string, simuId: string, foldIdx: int): seq<Event> {
    [Wrote(SelectedFeaturesFile(resuDir, simuId, St, foldIdx)), Wrote(SelectedFeaturesFile(resuDir, simuId, MsfanNp, foldIdx)),
     Wrote(SelectedFeaturesFile(resuDir, simuId, Msfan, foldIdx))]
  }

  method WriteAllSelections(fs: FileStore, resuDir: string, simuId: string, foldIdx: int, sels: PerAlgo<seq<seq<int>>>)
    modifies fs
    ensures fs.files == SelectionWrites(old(fs.files), resuDir, simuId, foldIdx, sels)
    ensures fs.trace == old(fs.trace) + SelectionTrace(resuDir, simuId, foldIdx)
  {
    WriteSelections(fs, SelectedFeaturesFile(resuDir, simuId, St, foldIdx), sels.st);
    WriteSelections(fs, SelectedFeaturesFile(resuDir, simuId, MsfanNp, foldIdx), sels.np);
    WriteSelections(fs, SelectedFeaturesFile(resuDir, simuId, Msfan, foldIdx), sels.ms);
  }

  /** The six files a fold writes have six different names, whatever the directory, run id and fold. */
  lemma OutputNamesDistinct(resuDir: string, simuId: string, foldIdx: int)
    ensures var names := [ParametersFile(resuDir, simuId, St, foldIdx), ParametersFile(resuDir, simuId, MsfanNp, foldIdx),
                          ParametersFile(resuDir, simuId, Msfan, foldIdx), SelectedFeaturesFile(resuDir, simuId, St, foldIdx),
                          SelectedFeaturesFile(resuDir, simuId, MsfanNp, foldIdx), SelectedFeaturesFile(resuDir, simuId, Msfan, foldIdx)];
      Distinct(names)
  {
    var k := |resuDir| + |simuId| + |IntToString(foldIdx)| + 8;
    assert |ParametersFile(resuDir, simuId, St, foldIdx)| == k + 4 + 11;
    assert |ParametersFile(resuDir, simuId, MsfanNp, foldIdx)| == k + 8 + 11;
    assert |ParametersFile(resuDir, simuId, Msfan, foldIdx)| == k + 5 + 11;
    assert |SelectedFeaturesFile(resuDir, simuId, St, foldIdx)| == k + 4 + 18;
    assert |SelectedFeaturesFile(resuDir, simuId, MsfanNp, foldIdx)| == k + 8 + 18;
    assert |SelectedFeaturesFile(resuDir, simuId, Msfan, foldIdx)| == k + 5 + 18;
  }

  /**
    After both rounds of writes, each parameter file holds its algorithm's grid point, each
    selected-features file its algorithm's selections one task per line, and every other
    file is as it was.
  */
  lemma OutputsWritten(files: map<string, string>, resuDir: string, simuId: string, foldIdx: int,
                       opt: PerAlgo<string>, sels: PerAlgo<seq<seq<int>>>)
    ensures var out := SelectionWrites(ParameterWrites(files, resuDir, simuId, foldIdx, opt), resuDir, simuId, foldIdx, sels);
      (forall a :: ParametersFile(resuDir, simuId, a, foldIdx) in out &&
                   out[ParametersFile(resuDir, simuId, a, foldIdx)] == opt.Get(a)) &&
      (forall a :: SelectedFeaturesFile(resuDir, simuId, a, foldIdx) in out &&
                   out[SelectedFeaturesFile(resuDir, simuId, a, foldIdx)] == LinesText(SelectionLines(sels.Get(a)))) &&
      (forall k :: k in files && (forall a :: k != ParametersFile(resuDir, simuId, a, foldIdx) &&
                                           k != SelectedFeaturesFile(resuDir, simuId, a, foldIdx)) ==>
                   k in out && out[k] == files[k])
  {
    ParametersWritten(files, resuDir, simuId, foldIdx, opt, sels);
    SelectionsWritten(files, resuDir, simuId, foldIdx, opt, sels);
    OthersKept(files, resuDir, simuId, foldIdx, opt, sels);
  }

  lemma ParametersWritten(files: map<string, string>, resuDir: string, simuId: string, foldIdx: int,
                          opt: PerAlgo<string>, sels: PerAlgo<seq<seq<int>>>)
    ensures var out := SelectionWrites(ParameterWrites(files, resuDir, simuId, foldIdx, opt), resuDir, simuId, foldIdx, sels);
      forall a :: ParametersFile(resuDir, simuId, a, foldIdx) in out &&
                  out[ParametersFile(resuDir, simuId, a, foldIdx)] == opt.Get(a)
  {
    OutputNamesDistinct(resuDir, simuId, foldIdx);
    var out := SelectionWrites(ParameterWrites(files, resuDir, simuId, foldIdx, opt), resuDir, simuId, foldIdx, sels);
    forall a ensures ParametersFile(resuDir, simuId, a, foldIdx) in out &&
                     out[ParametersFile(resuDir, simuId, a, foldIdx)] == opt.Get(a) {
      match a
      case St =>
      case MsfanNp =>
      case Msfan =>
    }
  }

  lemma SelectionsWritten(files: map<string, string>, resuDir: string, simuId: string, foldIdx: int,
                          opt: PerAlgo<string>, sels: PerAlgo<seq<seq<int>>>)
    ensures var out := SelectionWrites(ParameterWrites(files, resuDir, simuId, foldIdx, opt), resuDir, simuId, foldIdx, sels);
      forall a :: SelectedFeaturesFile(resuDir, simuId, a, foldIdx) in out &&
                  out[SelectedFeaturesFile(resuDir, simuId, a, foldIdx)] == LinesText(SelectionLines(sels.Get(a)))
  {
    OutputNamesDistinct(resuDir, simuId, foldIdx);
    var out := SelectionWrites(ParameterWrites(files, resuDir, simuId, foldIdx, opt), resuDir, simuId, foldIdx, sels);
    forall a ensures SelectedFeaturesFile(resuDir, simuId, a, foldIdx) in out &&
                     out[SelectedFeaturesFile(resuDir, simuId, a, foldIdx)] == LinesText(SelectionLines(sels.Get(a))) {
      match a
      case St =>
      case MsfanNp =>
      case Msfan =>
    }
  }

  lemma OthersKept(files: map<string, string>, resuDir: string, simuId: string, foldIdx: int,
                   opt: PerAlgo<string>, sels: PerAlgo<seq<seq<int>>>)
    ensures var out := SelectionWrites(ParameterWrites(files, resuDir, simuId, foldIdx, opt), resuDir, simuId, foldIdx, sels);
      forall k :: k in files && (forall a :: k != ParametersFile(resuDir, simuId, a, foldIdx) &&
                                          k != SelectedFeaturesFile(resuDir, simuId, a, foldIdx)) ==>
                  k in out && out[k] == files[k]
  {
  }

  // ---------------------------------------------------------------------------
  // The final runs

  /** The three final runs, on the whole training set at the chosen points, parse. */
  predicate FinalParses(c: Context, scores: seq<string>, opt: PerAlgo<string>) {
    Parses(c, St, scores, opt.st) && Parses(c, MsfanNp, scores, opt.np) && Parses(c, Msfan, scores, opt.ms)
  }

  function FinalTrace(c: Context, scores: seq<string>, opt: PerAlgo<string>): seq<Event> {
    [Ran(Argv(c, St, scores, opt.st)), Ran(Argv(c, MsfanNp, scores, opt.np)), Ran(Argv(c, Msfan, scores, opt.ms))]
  }

  /** `run_sfan`, `run_msfan_nocorr` and `run_msfan` on the whole training set; ValueError at the first that does not parse. */
  method FinalRuns(fs: FileStore, c: Context, scores: seq<string>, opt: PerAlgo<string>)
    returns (r: Result<PerAlgo<seq<seq<int>>>, FoldError>)
    modifies fs
    ensures fs.files == old(fs.files)
    ensures r.Success? <==> FinalParses(c, scores, opt)
    ensures r.Success? ==> r.value == PerAlgo(c.run(St, scores, opt.st).value, c.run(MsfanNp, scores, opt.np).value,
                                              c.run(Msfan, scores, opt.ms).value)
    ensures r.Success? ==> fs.trace == old(fs.trace) + FinalTrace(c, scores, opt)
    ensures r.Failure? ==> r.error == ValueError
  {
    fs.Launched(Argv(c, St, scores, opt.st));
    var st := c.run(St, scores, opt.st);
    if st.None? {
      return Failure(ValueError);
    }
    fs.Launched(Argv(c, MsfanNp, scores, opt.np));
    var np := c.run(MsfanNp, scores, opt.np);
    if np.None? {
      return Failure(ValueError);
    }
    fs.Launched(Argv(c, Msfan, scores, opt.ms));
    var ms := c.run(Msfan, scores, opt.ms);
    if ms.None? {
      return Failure(ValueError);
    }
    return Success(PerAlgo(st.value, np.value, ms.value));
  }

  // ---------------------------------------------------------------------------
  // The whole fold

  /** What a fold leaves to its caller: the chosen grid points and the final selections. */
  datatype Report = Report(params: PerAlgo<string>, sels: PerAlgo<seq<seq<int>>>)

  /** Every run of the search parses and every weight file is there to be removed. */
  predicate SearchSucceeds(files: map<string, string>, c: Context, weights: seq<seq<string>>, grids: PerAlgo<seq<string>>) {
    AllParse(c, weights, grids) && Removable(files, Names(weights))
  }

  /** Nothing in the fold raises: the search, the scoring and the three final runs. */
  predicate FoldSucceeds(files: map<string, string>, c: Context, numFeatures: int, weights: seq<seq<string>>,
                         scores: seq<string>, grids: PerAlgo<seq<string>>, orders: PerAlgo<seq<string>>)
    requires Bounded(c) && OrdersFit(orders, grids)
  {
    SearchSucceeds(files, c, weights, grids) &&
    var lists := Archives(c, weights, grids);
    ShapedKeyed(lists.st, grids.st, c.numTasks, orders.st);
    ShapedKeyed(lists.np, grids.np, c.numTasks, orders.np);
    ShapedKeyed(lists.ms, grids.ms, c.numTasks, orders.ms);
    AllScorable(lists, orders, numFeatures) && FinalParses(c, scores, Chosen(lists, orders, numFeatures))
  }

  /**
    `run_fold` in its default configuration: the search over subsamples, the choice of
    parameters, their files, the final runs and the selected-features files. It fails
    exactly when one of its steps raises, with ValueError, OSError or ZeroDivisionError.
  */
  method RunFold(fs: FileStore, c: Context, numFeatures: int, foldIdx: int, resuDir: string, simuId: string,
                 weights: seq<seq<string>>, scores: seq<string>, grids: PerAlgo<seq<string>>, orders: PerAlgo<seq<string>>)
    returns (r: Result<Report, FoldError>)
    requires Bounded(c) && OrdersFit(orders, grids)
    modifies fs
    ensures r.Success? <==> FoldSucceeds(old(fs.files), c, numFeatures, weights, scores, grids, orders)
    ensures r.Failure? && SearchSucceeds(old(fs.files), c, weights, grids) ==> r.error in {ValueError, ZeroDivisionError}
    ensures r.Success? ==> (SearchSucceeds(old(fs.files), c, weights, grids) &&
      var lists := Archives(c, weights, grids);
      AllKeyed(lists, orders) && AllScorable(lists, orders, numFeatures) &&
      r.value.params == Chosen(lists, orders, numFeatures))
    ensures r.Success? ==> (FinalParses(c, scores, r.value.params) &&
      r.value.sels == PerAlgo(c.run(St, scores, r.value.params.st).value, c.run(MsfanNp, scores, r.value.params.np).value,
                              c.run(Msfan, scores, r.value.params.ms).value))
    ensures r.Success? ==>
      fs.files == SelectionWrites(ParameterWrites(old(fs.files) - Stability.AsSet(Names(weights)), resuDir, simuId, foldIdx,
                                                  r.value.params), resuDir, simuId, foldIdx, r.value.sels)
    ensures r.Success? ==>
      fs.trace == old(fs.trace) + SearchTrace(c, grids, weights) + ParameterTrace(resuDir, simuId, foldIdx) +
                  FinalTrace(c, scores, r.value.params) + SelectionTrace(resuDir, simuId, foldIdx)
  {
    var searched := SearchPhase(fs, c, weights, grids);
    if searched.Failure? {
      return Failure(searched.error);
    }
    var lists := searched.value;
    ShapedKeyed(lists.st, grids.st, c.numTasks, orders.st);
    ShapedKeyed(lists.np, grids.np, c.numTasks, orders.np);
    ShapedKeyed(lists.ms, grids.ms, c.numTasks, orders.ms);
    var opt := ChooseParameters(lists, orders, numFeatures);
    if opt.Failure? {
      return Failure(opt.error);
    }
    WriteParameters(fs, resuDir, simuId, foldIdx, opt.value);
    var sels := FinalRuns(fs, c, scores, opt.value);
    if sels.Failure? {
      return Failure(sels.error);
    }
    WriteAllSelections(fs, resuDir, simuId, foldIdx, sels.value);
    return Success(Report(opt.value, sels.value));
  }
}

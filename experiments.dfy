/**
  The bookkeeping of code/synthetic_data_experiments.py that surrounds a fold: the check
  of the command-line arguments, the names of the result files, the single-task grid
  derived from the multitask one, and the formats of the files one run writes for a later
  one to read (temporary weight-file names, chosen parameters, selected features).
*/
module Experiments {
  import opened Wrappers
  import opened Text
  import opened Files
  import Gateway
  import Stability

  // ---------------------------------------------------------------------------
  // Argument check

  /** The integer options; `None` where the option was not given on the command line. */
  datatype Args = Args(numTasks: Option<int>, numFeatures: Option<int>, numSamples: Option<int>,
                       numRepeats: Option<int>, numFolds: Option<int>, numSubsamples: Option<int>)

  /** Which check stopped the script, in the order the checks run. */
  datatype ArgError = NoTask | TooFewFeatures | NoSamples | NoRepeats | NoFolds | NoSubsamples

  /** Python 2 `x >= b`: an option that was not given (`None`) compares below every integer. */
  predicate AtLeast(x: Option<int>, b: int) {
    x.Some? && x.value >= b
  }

  function Rank(e: ArgError): nat {
    match e
    case NoTask => 0
    case TooFewFeatures => 1
    case NoSamples => 2
    case NoRepeats => 3
    case NoFolds => 4
    case NoSubsamples => 5
  }

  /** The condition checked under error `e`; `> 0` on integers is `>= 1`. */
  predicate Passes(a: Args, numCausalTotal: int, e: ArgError) {
    match e
    case NoTask => AtLeast(a.numTasks, 1)
    case TooFewFeatures => AtLeast(a.numFeatures, numCausalTotal)
    case NoSamples => AtLeast(a.numSamples, 1)
    case NoRepeats => AtLeast(a.numRepeats, 1)
    case NoFolds => AtLeast(a.numFolds, 1)
    case NoSubsamples => AtLeast(a.numSubsamples, 1)
  }

  /**
    `check_arguments_integrity`: `None` when the script goes on, otherwise the first check
    that fails (the script exits there, so later checks are never reached).
  */
  function CheckArguments(a: Args, numCausalTotal: int): (r: Option<ArgError>)
    ensures r.None? <==> forall e :: Passes(a, numCausalTotal, e)
    ensures r.Some? ==> (!Passes(a, numCausalTotal, r.value) &&
              forall e :: Rank(e) < Rank(r.value) ==> Passes(a, numCausalTotal, e))
  {
    if !Passes(a, numCausalTotal, NoTask) then Some(NoTask)
    else if !Passes(a, numCausalTotal, TooFewFeatures) then Some(TooFewFeatures)
    else if !Passes(a, numCausalTotal, NoSamples) then Some(NoSamples)
    else if !Passes(a, numCausalTotal, NoRepeats) then Some(NoRepeats)
    else if !Passes(a, numCausalTotal, NoFolds) then Some(NoFolds)
    else if !Passes(a, numCausalTotal, NoSubsamples) then Some(NoSubsamples)
    else None
  }

  /** An option left out stops the script at its check even when every earlier option is fine. */
  lemma MissingFoldsRejected(a: Args, numCausalTotal: int)
    requires a.numFolds.None?
    requires AtLeast(a.numTasks, 1) && AtLeast(a.numFeatures, numCausalTotal)
    requires AtLeast(a.numSamples, 1) && AtLeast(a.numRepeats, 1)
    ensures CheckArguments(a, numCausalTotal) == Some(NoFolds)
  {
  }

  // ---------------------------------------------------------------------------
  // Result-file names

  /** The three algorithms: single-task sfan, multitask without and with a precision matrix. */
  datatype Algo = St | MsfanNp | Msfan

  /** The eight measures written per algorithm. */
  datatype Measure = Acc | Mcc | Ppv | Tpr | Ci | Rmse | Timing | MaxRss

  /** One value per algorithm. */
  datatype PerAlgo<T> = PerAlgo(st: T, np: T, ms: T) {
    function Get(a: Algo): T {
      match a
      case St => st
      case MsfanNp => np
      case Msfan => ms
    }
  }

  const Algos: set<Algo> := {St, MsfanNp, Msfan}
  const Measures: set<Measure> := {Acc, Mcc, Ppv, Tpr, Ci, Rmse, Timing, MaxRss}

  /** The algorithm's part of a dictionary key. */
  function AlgoKey(a: Algo): string {
    match a
    case St => "st"
    case MsfanNp => "msfan_np"
    case Msfan => "msfan"
  }

  /** The algorithm's part of a file name. */
  function AlgoName(a: Algo): string {
    match a
    case St => "sfan"
    case MsfanNp => "msfan_np"
    case Msfan => "msfan"
  }

  function MeasureKey(m: Measure): string {
    match m
    case Acc => "acc"
    case Mcc => "mcc"
    case Ppv => "ppv"
    case Tpr => "tpr"
    case Ci => "ci"
    case Rmse => "rmse"
    case Timing => "timing"
    case MaxRss => "maxRSS"
  }

  /** The file extension of a measure: the key, except `consistency` for `ci`. */
  function MeasureExt(m: Measure): string {
    match m
    case Acc => "acc"
    case Mcc => "mcc"
    case Ppv => "ppv"
    case Tpr => "tpr"
    case Ci => "consistency"
    case Rmse => "rmse"
    case Timing => "timing"
    case MaxRss => "maxRSS"
  }

  function Key(m: Measure, a: Algo): string {
    MeasureKey(m) + "_" + AlgoKey(a)
  }

  /** The part of a result-file name after `<resu_dir>/<simu_id>.`: `<algo>.<measure>`. */
  function Suffix(m: Measure, a: Algo): string {
    AlgoName(a) + "." + MeasureExt(m)
  }

  function FileName(resuDir: string, simuId: string, m: Measure, a: Algo): string {
    resuDir + "/" + simuId + "." + Suffix(m, a)
  }

  /** `get_analysis_files_names`: the file of every (measure, algorithm) pair under its key. */
  function AnalysisFilesNames(resuDir: string, simuId: string): (r: map<string, string>)
    ensures forall m, a :: Key(m, a) in r && r[Key(m, a)] == FileName(resuDir, simuId, m, a)
    ensures forall k :: k in r ==> exists m, a :: k == Key(m, a)
  {
    Enumerated();
    KeysDistinct();
    map m, a | m in Measures && a in Algos :: Key(m, a) := FileName(resuDir, simuId, m, a)
  }

  lemma Enumerated()
    ensures forall m: Measure :: m in Measures
    ensures forall a: Algo :: a in Algos
  {
    forall m: Measure ensures m in Measures {
      match m
      case Acc => case Mcc => case Ppv => case Tpr => case Ci => case Rmse => case Timing => case MaxRss =>
    }
    forall a: Algo ensures a in Algos {
      match a
      case St => case MsfanNp => case Msfan =>
    }
  }

  /** Two strings cut at the first occurrence of a separator that the heads do not contain. */
  lemma SplitAtSeparator(x: string, y: string, x': string, y': string, c: char)
    requires c !in x && c !in x'
    requires x + [c] + y == x' + [c] + y'
    ensures x == x' && y == y'
  {
    var s := x + [c] + y;
    assert s == x' + [c] + y';
    assert s[|x|] == c && s[|x'|] == c;
    assert forall i :: 0 <= i < |x| ==> s[i] == x[i] && s[i] != c;
    assert forall i :: 0 <= i < |x'| ==> s[i] == x'[i] && s[i] != c;
    assert |x| == |x'|;
    assert x == s[..|x|] == x';
    assert y == s[|x| + 1..] == y';
  }

  /** Different (measure, algorithm) pairs have different keys. */
  lemma KeysDistinct()
    ensures forall m, a, m', a' :: Key(m, a) == Key(m', a') ==> m == m' && a == a'
  {
    forall m, a, m', a' | Key(m, a) == Key(m', a') ensures m == m' && a == a' {
      SplitAtSeparator(MeasureKey(m), AlgoKey(a), MeasureKey(m'), AlgoKey(a'), '_');
    }
  }

  lemma FileNameInjective(resuDir: string, simuId: string, m: Measure, a: Algo, m': Measure, a': Algo)
    requires FileName(resuDir, simuId, m, a) == FileName(resuDir, simuId, m', a')
    ensures m == m' && a == a'
  {
    var p := resuDir + "/" + simuId + ".";
    var t := Suffix(m, a);
    var t' := Suffix(m', a');
    assert t == (p + t)[|p|..] == t';
    assert '.' !in AlgoName(a) && '.' !in AlgoName(a');
    SplitAtSeparator(AlgoName(a), MeasureExt(m), AlgoName(a'), MeasureExt(m'), '.');
  }

  /** Every (measure, algorithm) pair. */
  function Pairs(): set<(Measure, Algo)> {
    Product(Measures, Algos)
  }

  function Product<A, B>(s: set<A>, t: set<B>): set<(A, B)> {
    set a, b | a in s && b in t :: (a, b)
  }

  lemma InProduct<A, B>(s: set<A>, t: set<B>, a: A, b: B)
    requires a in s && b in t
    ensures (a, b) in Product(s, t)
  {
  }

  function Image<A, B>(s: set<A>, f: A -> B): set<B> {
    set x | x in s :: f(x)
  }

  /** A function that is one-to-one on a set maps it onto a set of the same size. */
  lemma {:induction false} InjectiveImageCard<A, B>(s: set<A>, f: A -> B)
    requires forall x, y :: x in s && y in s && f(x) == f(y) ==> x == y
    ensures |Image(s, f)| == |s|
    decreases |s|
  {
    if s != {} {
      var x :| x in s;
      var s' := s - {x};
      InjectiveImageCard(s', f);
      assert Image(s, f) == Image(s', f) + {f(x)};
    }
  }

  /** The pairs drawn from two sets number the product of their sizes. */
  lemma {:induction false} ProductCard<A, B>(s: set<A>, t: set<B>)
    ensures |Product(s, t)| == |s| * |t|
    decreases |s|
  {
    if s == {} {
      assert Product(s, t) == {};
    } else {
      var x :| x in s;
      var s' := s - {x};
      ProductCard(s', t);
      var f := (b: B) => (x, b);
      InjectiveImageCard(t, f);
      var row := Image(t, f);
      assert Product(s, t) == Product(s', t) + row;
      assert Product(s', t) !! row;
      assert |s| * |t| == |s'| * |t| + |t|;
    }
  }

  lemma PairsCount()
    ensures |Pairs()| == 24
  {
    assert |Measures| == 8;
    assert |Algos| == 3;
    ProductCard(Measures, Algos);
  }

  /** The keys are the keys of the 24 pairs. */
  lemma AnalysisFilesKeys(resuDir: string, simuId: string)
    ensures AnalysisFilesNames(resuDir, simuId).Keys == set p | p in Pairs() :: Key(p.0, p.1)
  {
    var r := AnalysisFilesNames(resuDir, simuId);
    var s := set p | p in Pairs() :: Key(p.0, p.1);
    Enumerated();
    forall k | k in r ensures k in s {
      var m, a :| k == Key(m, a);
      InProduct(Measures, Algos, m, a);
    }
    forall k | k in s ensures k in r {
      var p :| p in Pairs() && k == Key(p.0, p.1);
    }
  }

  /** There are exactly 24 entries. */
  lemma AnalysisFilesCount(resuDir: string, simuId: string)
    ensures |AnalysisFilesNames(resuDir, simuId)| == 24
  {
    var key := (p: (Measure, Algo)) => Key(p.0, p.1);
    forall x, y | x in Pairs() && y in Pairs() && key(x) == key(y) ensures x == y {
      KeysDistinct();
    }
    PairsCount();
    InjectiveImageCard(Pairs(), key);
    AnalysisFilesKeys(resuDir, simuId);
    var img := Image(Pairs(), key);
    forall k | k in img ensures k in AnalysisFilesNames(resuDir, simuId) {
      var p :| p in Pairs() && k == key(p);
    }
    var r := AnalysisFilesNames(resuDir, simuId);
    assert img == r.Keys;
    assert |img| == 24;
    assert |r| == |r.Keys|;
  }

  /** No two entries name the same file. */
  lemma AnalysisFilesDistinct(resuDir: string, simuId: string)
    ensures var r := AnalysisFilesNames(resuDir, simuId);
      forall k, k' :: k in r && k' in r && k != k' ==> r[k] != r[k']
  {
    var r := AnalysisFilesNames(resuDir, simuId);
    forall k, k' | k in r && k' in r && k != k' ensures r[k] != r[k'] {
      var m, a :| k == Key(m, a);
      var m', a' :| k' == Key(m', a');
      if r[k] == r[k'] {
        FileNameInjective(resuDir, simuId, m, a, m', a');
      }
    }
  }

  // ---------------------------------------------------------------------------
  // The single-task grid

  /** Python's `ws[:-2]`: everything but the last two tokens, nothing when there are fewer than two. */
  function DropLastTwo(ws: seq<string>): (r: seq<string>)
    ensures |ws| >= 2 ==> |r| == |ws| - 2 && ws == r + ws[|ws| - 2..]
    ensures |ws| < 2 ==> r == []
  {
    if |ws| < 2 then [] else ws[..|ws| - 2]
  }

  /**
    `lbd_eta_values`: each multitask grid point `-l <lambda> -e <eta> -m <mu>` with its last
    two tokens dropped and the rest joined by single spaces, in the same order.
  */
  function SingleTaskGrid(npGrid: seq<string>): (r: seq<string>)
    ensures |r| == |npGrid|
  {
    seq(|npGrid|, i requires 0 <= i < |npGrid| => Join(" ", DropLastTwo(Words(npGrid[i]))))
  }

  /** Each single-task grid point reads back as its multitask point's tokens minus the last two. */
  lemma SingleTaskGridWords(npGrid: seq<string>, i: nat)
    requires i < |npGrid|
    ensures Words(SingleTaskGrid(npGrid)[i]) == DropLastTwo(Words(npGrid[i]))
  {
    var ws := Words(npGrid[i]);
    if |ws| >= 2 {
      assert forall j :: 0 <= j < |ws| - 2 ==> DropLastTwo(ws)[j] == ws[j];
    }
    WordsOfJoin(DropLastTwo(ws));
  }

  /**
    Running single-task sfan at grid point `i` is running multitask sfan without precision at
    the multitask point `i` with the correlation weight `mu` replaced by 0.
  */
  lemma SingleTaskGridIsMuZero(npGrid: seq<string>, i: nat, numTasks: int, network: string, weights: seq<string>)
    requires i < |npGrid|
    requires var ws := Words(npGrid[i]); |ws| >= 2 && ws[|ws| - 2] == "-m"
    ensures var multi := Gateway.NoCorrArgv(numTasks, network, weights, npGrid[i]);
      Gateway.SfanArgv(numTasks, network, weights, SingleTaskGrid(npGrid)[i]) == multi[..|multi| - 1] + ["0"]
  {
    var ws := Words(npGrid[i]);
    assert SingleTaskGrid(npGrid)[i] == Join(" ", ws[..|ws| - 2]);
    Gateway.SfanArgvIsNoCorrWithoutMu(numTasks, network, weights, npGrid[i]);
  }

  // ---------------------------------------------------------------------------
  // Temporary weight-file names

  function TmpWeightsFile(resuDir: string, simuId: string, foldIdx: int): string {
    resuDir + "/" + simuId + ".fold_" + IntToString(foldIdx) + ".tmp_weights_fnames"
  }

  /** One line per subsample: that subsample's file names, one per task, joined by spaces. */
  function WeightsLines(weights: seq<seq<string>>): (ls: seq<string>)
    ensures |ls| == |weights|
  {
    seq(|weights|, s requires 0 <= s < |weights| => Join(" ", weights[s]))
  }

  /** `save_tmp_weights_fnames`: write one line per subsample to the fold's list file. */
  method SaveTmpWeightsFnames(fs: FileStore, resuDir: string, simuId: string, foldIdx: int, weights: seq<seq<string>>)
    modifies fs
    ensures fs.files == old(fs.files)[TmpWeightsFile(resuDir, simuId, foldIdx) := LinesText(WeightsLines(weights))]
    ensures fs.trace == old(fs.trace) + [Wrote(TmpWeightsFile(resuDir, simuId, foldIdx))]
  {
    var fname := TmpWeightsFile(resuDir, simuId, foldIdx);
    ghost var lines := WeightsLines(weights);
    fs.Write(fname, "");
    for s := 0 to |weights|
      invariant fs.files == old(fs.files)[fname := LinesText(lines[..s])]
      invariant fs.trace == old(fs.trace) + [Wrote(fname)]
    {
      var line := Join(" ", weights[s]);
      LinesTextTake(lines, s);
      fs.Append(fname, line + "\n");
    }
    assert lines[..|weights|] == lines;
  }

  /** `fetch_tmp_weights_fnames`: the list file's lines split on whitespace; `None` (IOError) when it is missing. */
  function FetchTmpWeightsFnames(files: map<string, string>, resuDir: string, simuId: string, foldIdx: int): (r: Option<seq<seq<string>>>)
    ensures r.Some? <==> TmpWeightsFile(resuDir, simuId, foldIdx) in files
  {
    var fname := TmpWeightsFile(resuDir, simuId, foldIdx);
    if fname !in files then None
    else
      var ls := FileLines(files[fname]);
      Some(seq(|ls|, s requires 0 <= s < |ls| => Words(ls[s])))
  }

  /** Fetching after saving gives the names back, when every name is non-empty and has no whitespace. */
  lemma TmpWeightsRoundTrip(files: map<string, string>, resuDir: string, simuId: string, foldIdx: int, weights: seq<seq<string>>)
    requires forall s, t :: 0 <= s < |weights| && 0 <= t < |weights[s]| ==> IsToken(weights[s][t])
    ensures var saved := files[TmpWeightsFile(resuDir, simuId, foldIdx) := LinesText(WeightsLines(weights))];
      FetchTmpWeightsFnames(saved, resuDir, simuId, foldIdx) == Some(weights)
  {
    var ls := WeightsLines(weights);
    forall s | 0 <= s < |ls| ensures '\n' !in ls[s] && Words(ls[s]) == weights[s] {
      JoinNoNewline(weights[s]);
      WordsOfJoin(weights[s]);
    }
    FileLinesOfLinesText(ls);
    var fname := TmpWeightsFile(resuDir, simuId, foldIdx);
    var saved := files[fname := LinesText(ls)];
    assert FileLines(saved[fname]) == ls;
    var r := FetchTmpWeightsFnames(saved, resuDir, simuId, foldIdx);
    assert |r.value| == |weights|;
    assert forall s :: 0 <= s < |weights| ==> r.value[s] == weights[s];
    assert r.value == weights;
  }

  // ---------------------------------------------------------------------------
  // Parameter files

  function ParametersFile(resuDir: string, simuId: string, a: Algo, foldIdx: int): string {
    resuDir + "/" + simuId + "." + AlgoName(a) + ".fold_" + IntToString(foldIdx) + ".parameters"
  }

  /** `open(fname).read().rstrip()`; `None` (IOError) when the file is missing. */
  function ReadParameters(files: map<string, string>, fname: string): (r: Option<string>)
    ensures r.Some? <==> fname in files
    ensures r.Some? ==> |r.value| <= |files[fname]| && r.value == files[fname][..|r.value|]
  {
    if fname in files then Some(RStrip(files[fname])) else None
  }

  /** A parameter string written without a newline reads back unchanged exactly when it has no trailing whitespace. */
  lemma ParametersRoundTrip(files: map<string, string>, fname: string, params: string)
    ensures ReadParameters(files[fname := params], fname) == Some(params) <==>
              (params == [] || !IsSpace(params[|params| - 1]))
  {
    RStripIdentity(params);
  }

  // ---------------------------------------------------------------------------
  // Selected-features files

  function SelectedFeaturesFile(resuDir: string, simuId: string, a: Algo, foldIdx: int): string {
    resuDir + "/" + simuId + "." + AlgoName(a) + ".fold_" + IntToString(foldIdx) + ".selected_features"
  }

  /** One line per task: the task's selected (0-based) features, space-separated. */
  function SelectionLines(sels: seq<seq<int>>): (ls: seq<string>)
    ensures |ls| == |sels|
  {
    seq(|sels|, t requires 0 <= t < |sels| => FormatInts(sels[t]))
  }

  /** The text of the first `t + 1` lines is that of the first `t` lines followed by line `t`. */
  lemma LinesTextTake(lines: seq<string>, t: nat)
    requires t < |lines|
    ensures LinesText(lines[..t + 1]) == LinesText(lines[..t]) + (lines[t] + "\n")
  {
    LinesTextSnoc(lines[..t], lines[t]);
    assert lines[..t + 1] == lines[..t] + [lines[t]];
  }

  /** Write the selections of one algorithm to its file, one task per line. */
  method WriteSelections(fs: FileStore, fname: string, sels: seq<seq<int>>)
    modifies fs
    ensures fs.files == old(fs.files)[fname := LinesText(SelectionLines(sels))]
    ensures fs.trace == old(fs.trace) + [Wrote(fname)]
  {
    ghost var lines := SelectionLines(sels);
    fs.Write(fname, "");
    for t := 0 to |sels|
      invariant fs.files == old(fs.files)[fname := LinesText(lines[..t])]
      invariant fs.trace == old(fs.trace) + [Wrote(fname)]
    {
      var line := FormatInts(sels[t]);
      LinesTextTake(lines, t);
      fs.Append(fname, line + "\n");
    }
    assert lines[..|sels|] == lines;
  }

  /**
    Reading line `t` of a selected-features file and splitting it gives the decimal strings
    of task `t`'s selection, which parse back to it; past the last task the line is empty.
  */
  lemma SelectionsReadBack(sels: seq<seq<int>>, t: nat)
    ensures t < |sels| ==> (Words(ReadLineAt(LinesText(SelectionLines(sels)), t)) == IntStrings(sels[t]) &&
              ParseInts(Words(ReadLineAt(LinesText(SelectionLines(sels)), t))) == Some(sels[t]))
    ensures t >= |sels| ==> Words(ReadLineAt(LinesText(SelectionLines(sels)), t)) == []
  {
    var ls := SelectionLines(sels);
    forall u | 0 <= u < |ls| ensures '\n' !in ls[u] {
      FormatIntsRoundTrip(sels[u]);
    }
    FileLinesOfLinesText(ls);
    if t < |sels| {
      FormatIntsRoundTrip(sels[t]);
    }
  }

  /**
    The tokens `consistency_index_task` reads for task `t` from the selected-features files
    of the folds are the decimal strings of each fold's selection for that task.
  */
  lemma FoldTokensOfSelections(files: map<string, string>, foldFiles: seq<string>, sels: seq<seq<seq<int>>>, t: nat)
    requires |sels| == |foldFiles|
    requires forall f :: 0 <= f < |foldFiles| ==>
               foldFiles[f] in files && files[foldFiles[f]] == LinesText(SelectionLines(sels[f])) && t < |sels[f]|
    ensures var tokens := Stability.FoldTokens(files, foldFiles, t);
      forall f :: 0 <= f < |foldFiles| ==> tokens[f] == IntStrings(sels[f][t])
  {
    forall f | 0 <= f < |foldFiles| ensures Words(ReadLineAt(files[foldFiles[f]], t)) == IntStrings(sels[f][t]) {
      SelectionsReadBack(sels[f], t);
    }
  }
}

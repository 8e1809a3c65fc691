/**
  `run_fold` (code/synthetic_data_experiments.py) in its default configuration. For every
  subsample, run the three solvers at every point of their grids on that subsample's
  weight files and archive each task's selection; then remove that subsample's weight
  files. Choose each algorithm's grid point by the k-way consistency index of its archive,
  write the chosen points, rerun the solvers on the whole training set at those points and
  write their selections.
*/
module Fold {
  import opened Wrappers
  import opened Files
  import opened Experiments
  import Gateway
  import Search
  import Stability

  /**
    One solver call, parsed: the algorithm, the weight files and the grid point in, the
    per-task selections out, or `None` where parsing the output raises ValueError.
  */
  type Run = (Algo, seq<string>, string) -> Option<seq<seq<int>>>

  /** What every solver call of a fold shares: the calls themselves, the task count, the network and the precision matrix. */
  datatype Context = Context(run: Run, numTasks: nat, network: string, precision: string)

  /** Why a fold stops: unparsable solver output, a weight file that cannot be removed, or an index over fewer than two selections. */
  datatype FoldError = ValueError | OSError(name: string) | ZeroDivisionError

  /** The argument vector of a call of algorithm `a`. */
  function ArgvOf(numTasks: nat, network: string, precision: string, a: Algo, weights: seq<string>, params: string): seq<string> {
    match a
    case St => Gateway.SfanArgv(numTasks, network, weights, params)
    case MsfanNp => Gateway.NoCorrArgv(numTasks, network, weights, params)
    case Msfan => Gateway.MsfanArgv(numTasks, network, weights, precision, params)
  }

  function Argv(c: Context, a: Algo, weights: seq<string>, params: string): seq<string> {
    ArgvOf(c.numTasks, c.network, c.precision, a, weights, params)
  }

  /**
    The calls of a fold driving the external process `solver`: each parses the process's
    output on the call's argument vector, from the third line for the single-task solver
    and from the fourth for the multitask ones.
  */
  function Wire(solver: Gateway.Solver, numTasks: nat, network: string, precision: string): Context {
    Context((a: Algo, weights: seq<string>, params: string) =>
              Gateway.ParseSelections(solver(ArgvOf(numTasks, network, precision, a, weights, params)),
                                      if a == St then 2 else 3, numTasks),
            numTasks, network, precision)
  }

  /** No call reports on more tasks than there are. */
  ghost predicate Bounded(c: Context) {
    forall a, weights, params :: c.run(a, weights, params).Some? ==> |c.run(a, weights, params).value| <= c.numTasks
  }

  /** A wired fold's calls are `run_sfan`, `run_msfan_nocorr` and `run_msfan` on the same argument vectors. */
  lemma WireIsRun(solver: Gateway.Solver, numTasks: nat, network: string, precision: string, weights: seq<string>, params: string)
    ensures var c := Wire(solver, numTasks, network, precision);
      c.run(St, weights, params) == Gateway.RunSfan(solver, numTasks, network, weights, params) &&
      c.run(MsfanNp, weights, params) == Gateway.RunMsfanNocorr(solver, numTasks, network, weights, params) &&
      c.run(Msfan, weights, params) == Gateway.RunMsfan(solver, numTasks, network, weights, precision, params)
  {
    var c := Wire(solver, numTasks, network, precision);
    forall a | a in Algos
      ensures c.run(a, weights, params) ==
        Gateway.ParseSelections(solver(ArgvOf(numTasks, network, precision, a, weights, params)), if a == St then 2 else 3, numTasks)
    {
    }
    assert ArgvOf(numTasks, network, precision, St, weights, params) == Gateway.SfanArgv(numTasks, network, weights, params);
    assert ArgvOf(numTasks, network, precision, MsfanNp, weights, params) == Gateway.NoCorrArgv(numTasks, network, weights, params);
  }

  /** A wired fold's calls report on at most `numTasks` tasks. */
  lemma WireBounded(solver: Gateway.Solver, numTasks: nat, network: string, precision: string)
    ensures Bounded(Wire(solver, numTasks, network, precision))
  {
    var c := Wire(solver, numTasks, network, precision);
    forall a, weights, params | c.run(a, weights, params).Some?
      ensures |c.run(a, weights, params).value| <= c.numTasks
    {
      var argv := ArgvOf(numTasks, network, precision, a, weights, params);
      assert c.run(a, weights, params) == Gateway.ParseSelections(solver(argv), if a == St then 2 else 3, numTasks);
    }
  }

  /** The call's output parses: `int` raises no ValueError on the selection lines. */
  predicate Parses(c: Context, a: Algo, weights: seq<string>, params: string) {
    c.run(a, weights, params).Some?
  }

  // ---------------------------------------------------------------------------
  // The selection archive

  /**
    `sf_st_dict`, `sf_np_dict` or `sf_dict`: per grid point, per task, the selections
    archived so far. The inner dictionary, keyed 0 .. num_tasks - 1, is a sequence.
  */
  type Lists = map<string, seq<seq<seq<int>>>>

  /** The archive has an entry for every grid point, and every entry has one list per task. */
  ghost predicate Shaped(lists: Lists, grid: seq<string>, numTasks: nat) {
    (forall i :: 0 <= i < |grid| ==> grid[i] in lists) && forall p :: p in lists ==> |lists[p]| == numTasks
  }

  predicate Distinct(xs: seq<string>) {
    forall i, j :: 0 <= i < j < |xs| ==> xs[i] != xs[j]
  }

  /** The archive as initialised: every grid point maps every task to an empty list. */
  function Fresh(grid: seq<string>, numTasks: nat): (r: Lists)
    ensures Shaped(r, grid, numTasks)
    ensures forall p :: p in r ==> r[p] == Gateway.NoSelections<seq<int>>(numTasks)
  {
    map p | p in grid :: Gateway.NoSelections<seq<int>>(numTasks)
  }

  /** The fresh archive has exactly the grid's points as keys. */
  lemma FreshKeys(grid: seq<string>, numTasks: nat)
    ensures forall p :: p in Fresh(grid, numTasks) <==> p in grid
  {
  }

  /** The initialisation loop over a grid: every grid point gets an empty list per task. */
  method InitLists(grid: seq<string>, numTasks: nat) returns (lists: Lists)
    ensures lists == Fresh(grid, numTasks)
  {
    lists := map[];
    for i := 0 to |grid|
      invariant lists == Fresh(grid[..i], numTasks)
    {
      assert grid[..i + 1] == grid[..i] + [grid[i]];
      lists := lists[grid[i] := Gateway.NoSelections<seq<int>>(numTasks)];
    }
    assert grid[..|grid|] == grid;
  }

  /** `sf[params][t].append(sels[t])` for every task `t` the solver reported on. */
  function Recorded(perTask: seq<seq<seq<int>>>, sels: seq<seq<int>>): (r: seq<seq<seq<int>>>)
    requires |sels| <= |perTask|
    ensures |r| == |perTask|
  {
    seq(|perTask|, t requires 0 <= t < |perTask| => if t < |sels| then perTask[t] + [sels[t]] else perTask[t])
  }

  /** `for task_idx, sel_list in enumerate(sel_): sf[params][task_idx].append(sel_list)`. */
  method Record(lists: Lists, params: string, sels: seq<seq<int>>) returns (lists': Lists)
    requires params in lists && |sels| <= |lists[params]|
    ensures lists' == lists[params := Recorded(lists[params], sels)]
  {
    var perTask := lists[params];
    for t := 0 to |sels|
      invariant |perTask| == |lists[params]|
      invariant forall u :: 0 <= u < |perTask| ==>
                  perTask[u] == if u < t then lists[params][u] + [sels[u]] else lists[params][u]
    {
      perTask := perTask[t := perTask[t] + [sels[t]]];
    }
    assert perTask == Recorded(lists[params], sels);
    lists' := lists[params := perTask];
  }

  /** Each selection fits the task lists of the grid point it is recorded under. */
  ghost predicate Fits(lists: Lists, points: seq<string>, sels: seq<seq<seq<int>>>) {
    |points| == |sels| && forall i :: 0 <= i < |points| ==> points[i] in lists && |sels[i]| <= |lists[points[i]]|
  }

  /** The archive after recording `sels[i]` under `points[i]` for each `i` in order. */
  function RecordAll(lists: Lists, points: seq<string>, sels: seq<seq<seq<int>>>): (r: Lists)
    requires Fits(lists, points, sels)
    ensures r.Keys == lists.Keys && forall p :: p in r ==> |r[p]| == |lists[p]|
  {
    if points == [] then lists
    else
      var k := |points| - 1;
      var m := RecordAll(lists, points[..k], sels[..k]);
      m[points[k] := Recorded(m[points[k]], sels[k])]
  }

  /** With no point listed twice, each listed point gets its own selection appended and every other point is left alone. */
  lemma {:induction false} RecordAllDistinct(lists: Lists, points: seq<string>, sels: seq<seq<seq<int>>>)
    requires Fits(lists, points, sels) && Distinct(points)
    ensures var r := RecordAll(lists, points, sels);
      (forall h :: 0 <= h < |points| ==> r[points[h]] == Recorded(lists[points[h]], sels[h])) &&
      (forall p :: p in lists && p !in points ==> r[p] == lists[p])
  {
    if points != [] {
      var k := |points| - 1;
      RecordAllDistinct(lists, points[..k], sels[..k]);
      forall h | 0 <= h < k ensures points[h] == points[..k][h] && sels[h] == sels[..k][h] && points[h] != points[k] {
      }
    }
  }

  /** Per subsample, per grid point, per task: the selections of a whole search. */
  type History = seq<seq<seq<seq<int>>>>

  /** Every subsample ran every grid point, and no run reported on more tasks than there are. */
  ghost predicate Sized(hist: History, grid: seq<string>, numTasks: nat) {
    forall s :: 0 <= s < |hist| ==> |hist[s]| == |grid| && forall g :: 0 <= g < |grid| ==> |hist[s][g]| <= numTasks
  }

  /** The archive of a search after the subsamples of `hist`, starting from the fresh archive. */
  function Archived(grid: seq<string>, numTasks: nat, hist: History): (r: Lists)
    requires Sized(hist, grid, numTasks)
    ensures Shaped(r, grid, numTasks)
  {
    if hist == [] then Fresh(grid, numTasks)
    else
      var k := |hist| - 1;
      var m := Archived(grid, numTasks, hist[..k]);
      RecordAll(m, grid, hist[k])
  }

  /** With no grid point listed twice, one more subsample appends its selections at each grid point. */
  lemma ArchivedStep(grid: seq<string>, numTasks: nat, hist: History, h: nat)
    requires Sized(hist, grid, numTasks) && Distinct(grid) && h < |grid| && hist != []
    ensures var k := |hist| - 1;
      Sized(hist[..k], grid, numTasks) &&
      Archived(grid, numTasks, hist)[grid[h]] == Recorded(Archived(grid, numTasks, hist[..k])[grid[h]], hist[k][h])
  {
    var k := |hist| - 1;
    var front := hist[..k];
    assert forall s :: 0 <= s < k ==> front[s] == hist[s];
    assert Sized(front, grid, numTasks);
    RecordAllDistinct(Archived(grid, numTasks, front), grid, hist[k]);
  }

  /**
    With no grid point listed twice, and every subsample reporting on every task at grid
    point `h`, the archive list of that point and task `t` holds that task's selection from
    each subsample, in subsample order.
  */
  lemma {:induction false} ArchivedInOrder(grid: seq<string>, numTasks: nat, hist: History, h: nat, t: nat)
    requires Sized(hist, grid, numTasks) && Distinct(grid) && h < |grid| && t < numTasks
    requires forall s :: 0 <= s < |hist| ==> |hist[s][h]| == numTasks
    ensures var l := Archived(grid, numTasks, hist)[grid[h]][t];
      |l| == |hist| && forall s :: 0 <= s < |hist| ==> l[s] == hist[s][h][t]
  {
    if hist == [] {
      assert grid[h] in grid;
      assert Archived(grid, numTasks, hist)[grid[h]] == Gateway.NoSelections<seq<int>>(numTasks);
    } else {
      var k := |hist| - 1;
      var front := hist[..k];
      ArchivedStep(grid, numTasks, hist, h);
      ArchivedInOrder(grid, numTasks, front, h, t);
      var before := Archived(grid, numTasks, front)[grid[h]][t];
      var l := Archived(grid, numTasks, hist)[grid[h]][t];
      assert l == before + [hist[k][h][t]];
      forall s | 0 <= s < |hist| ensures l[s] == hist[s][h][t] {
        if s < k {
          assert l[s] == before[s] == front[s][h][t];
        }
      }
    }
  }

  /** Every run of a sweep over `grid` parses. */
  predicate SweepParses(c: Context, a: Algo, weights: seq<string>, grid: seq<string>) {
    forall g :: 0 <= g < |grid| ==> Parses(c, a, weights, grid[g])
  }

  /** The selections of a sweep, one per grid point. */
  function SweepSels(c: Context, a: Algo, weights: seq<string>, grid: seq<string>): (r: seq<seq<seq<int>>>)
    requires Bounded(c) && SweepParses(c, a, weights, grid)
    ensures |r| == |grid| && forall g :: 0 <= g < |grid| ==> |r[g]| <= c.numTasks
  {
    seq(|grid|, g requires 0 <= g < |grid| => c.run(a, weights, grid[g]).value)
  }

  /** The selections of the sweeps on every subsample. */
  function SearchSels(c: Context, a: Algo, weights: seq<seq<string>>, grid: seq<string>): (r: History)
    requires Bounded(c) && forall s :: 0 <= s < |weights| ==> SweepParses(c, a, weights[s], grid)
    ensures |r| == |weights| && Sized(r, grid, c.numTasks)
  {
    seq(|weights|, s requires 0 <= s < |weights| => SweepSels(c, a, weights[s], grid))
  }

  /** Each algorithm's archive is shaped for its grid. */
  ghost predicate AllShaped(lists: PerAlgo<Lists>, grids: PerAlgo<seq<string>>, numTasks: nat) {
    Shaped(lists.st, grids.st, numTasks) && Shaped(lists.np, grids.np, numTasks) && Shaped(lists.ms, grids.ms, numTasks)
  }

  /** The archive after a sweep over `grid` whose runs all parsed. */
  function Swept(lists: Lists, c: Context, a: Algo, weights: seq<string>, grid: seq<string>): (r: Lists)
    requires Bounded(c) && Shaped(lists, grid, c.numTasks) && SweepParses(c, a, weights, grid)
    ensures Shaped(r, grid, c.numTasks)
  {
    SweepFits(lists, c, a, weights, grid, |grid|);
    assert grid[..|grid|] == grid;
    RecordAll(lists, grid, SweepSels(c, a, weights, grid))
  }

  // ---------------------------------------------------------------------------
  // The search over subsamples

  /** The solver launches of one sweep over a grid, in grid order. */
  function Runs(c: Context, a: Algo, weights: seq<string>, grid: seq<string>): (r: seq<Event>)
  {
    seq(|grid|, g requires 0 <= g < |grid| => Ran(Argv(c, a, weights, grid[g])))
  }

  function Removals(names: seq<string>): (r: seq<Event>)
    ensures |r| == |names| && forall i :: 0 <= i < |names| ==> r[i] == Removed(names[i])
  {
    seq(|names|, i requires 0 <= i < |names| => Removed(names[i]))
  }

  /** One subsample: the three sweeps, then the removal of its weight files. */
  function SubsampleTrace(c: Context, grids: PerAlgo<seq<string>>, weights: seq<string>): seq<Event> {
    SweepsTrace(c, grids, weights) + Removals(weights)
  }

  function SearchTrace(c: Context, grids: PerAlgo<seq<string>>, weights: seq<seq<string>>): seq<Event> {
    if weights == [] then []
    else SearchTrace(c, grids, weights[..|weights| - 1]) + SubsampleTrace(c, grids, weights[|weights| - 1])
  }

  /** Within a subsample, no weight file is removed before a solver launch. */
  lemma RemovalsFollowRuns(c: Context, grids: PerAlgo<seq<string>>, weights: seq<string>)
    ensures var tr := SubsampleTrace(c, grids, weights);
      forall i, j :: 0 <= i < j < |tr| && tr[j].Ran? ==> !tr[i].Removed?
  {
    var runs := SweepsTrace(c, grids, weights);
    var tr := SubsampleTrace(c, grids, weights);
    assert tr == runs + Removals(weights);
    assert forall k :: 0 <= k < |runs| ==> runs[k].Ran?;
    forall i, j | 0 <= i < j < |tr| && tr[j].Ran? ensures !tr[i].Removed? {
      assert j < |runs|;
      assert tr[i] == runs[i];
    }
  }

  /** The weight-file names of every subsample, one subsample after the other. */
  function Names(weights: seq<seq<string>>): seq<string> {
    if weights == [] then [] else Names(weights[..|weights| - 1]) + weights[|weights| - 1]
  }

  lemma {:induction false} NamesAppend(a: seq<seq<string>>, b: seq<seq<string>>)
    ensures Names(a + b) == Names(a) + Names(b)
    decreases |b|
  {
    if b == [] {
      assert a + b == a;
    } else {
      var b' := b[..|b| - 1];
      assert (a + b)[..|a + b| - 1] == a + b';
      NamesAppend(a, b');
    }
  }

  /** Every name of every subsample occurs in the concatenation. */
  lemma {:induction false} NamesHas(weights: seq<seq<string>>, s: nat, i: nat)
    requires s < |weights| && i < |weights[s]|
    ensures weights[s][i] in Names(weights)
    decreases |weights|
  {
    var front := weights[..|weights| - 1];
    if s < |front| {
      NamesHas(front, s, i);
    } else {
      assert Names(weights)[|Names(front)| + i] == weights[s][i];
    }
  }

  /** Every name is a file at the start and none is listed twice, so that removing them in order never fails. */
  predicate Removable(files: map<string, string>, names: seq<string>) {
    Distinct(names) && forall i :: 0 <= i < |names| ==> names[i] in files
  }

  /** `for fname in tmp_weights_f_list: os.remove(fname)`, stopping at the first OSError. */
  method RemoveAll(fs: FileStore, names: seq<string>) returns (r: Option<string>)
    modifies fs
    ensures r.None? <==> Removable(old(fs.files), names)
    ensures r.Some? ==> r.value in names
    ensures r.None? ==> fs.files == old(fs.files) - Stability.AsSet(names)
    ensures r.None? ==> fs.trace == old(fs.trace) + Removals(names)
  {
    for i := 0 to |names|
      invariant Removable(old(fs.files), names[..i])
      invariant fs.files == old(fs.files) - Stability.AsSet(names[..i])
      invariant fs.trace == old(fs.trace) + Removals(names[..i])
    {
      var ok := fs.Remove(names[i]);
      if !ok {
        assert names[i] !in old(fs.files) || names[i] in names[..i];
        return Some(names[i]);
      }
      assert names[..i + 1] == names[..i] + [names[i]];
      assert Removals(names[..i + 1]) == Removals(names[..i]) + [Removed(names[i])];
    }
    assert names[..|names|] == names;
    return None;
  }

  /** Removing the files of one more subsample succeeds exactly when the longer list is removable from the start. */
  lemma RemovableStep(files: map<string, string>, done: seq<string>, next: seq<string>)
    requires Removable(files, done)
    ensures Removable(files - Stability.AsSet(done), next) <==> Removable(files, done + next)
  {
    var all := done + next;
    if Removable(files - Stability.AsSet(done), next) {
      forall i, j | 0 <= i < j < |all| ensures all[i] != all[j] {
        if j >= |done| && i < |done| {
          assert all[j] == next[j - |done|] && all[i] == done[i];
          assert all[i] in Stability.AsSet(done);
        } else if i >= |done| {
          assert all[i] == next[i - |done|] && all[j] == next[j - |done|];
        }
      }
      forall i | 0 <= i < |all| ensures all[i] in files {
        if i >= |done| {
          assert all[i] == next[i - |done|];
        }
      }
    }
    if Removable(files, all) {
      forall i | 0 <= i < |next| ensures next[i] in files - Stability.AsSet(done) {
        assert next[i] == all[|done| + i];
        forall k | 0 <= k < |done| ensures done[k] != next[i] {
          assert all[k] == done[k];
        }
      }
      forall i, j | 0 <= i < j < |next| ensures next[i] != next[j] {
        assert next[i] == all[|done| + i] && next[j] == all[|done| + j];
      }
    }
  }

  /** A prefix of a removable list is removable. */
  lemma RemovablePrefix(files: map<string, string>, names: seq<string>, k: nat)
    requires k <= |names| && Removable(files, names)
    ensures Removable(files, names[..k])
  {
  }

  /**
    When every weight file can be removed, the files of subsample `ss` and of every later
    subsample are all still present when subsample `ss` starts.
  */
  lemma LaterWeightsPresent(files: map<string, string>, weights: seq<seq<string>>, ss: nat)
    requires ss <= |weights| && Removable(files, Names(weights))
    ensures forall s, i :: ss <= s < |weights| && 0 <= i < |weights[s]| ==>
              weights[s][i] in files - Stability.AsSet(Names(weights[..ss]))
  {
    var done := Names(weights[..ss]);
    var rest := Names(weights[ss..]);
    assert weights == weights[..ss] + weights[ss..];
    NamesAppend(weights[..ss], weights[ss..]);
    assert Names(weights) == done + rest;
    RemovablePrefix(files, Names(weights), |done|);
    assert (done + rest)[..|done|] == done;
    RemovableStep(files, done, rest);
    forall s, i | ss <= s < |weights| && 0 <= i < |weights[s]|
      ensures weights[s][i] in files - Stability.AsSet(done)
    {
      NamesHas(weights[ss..], s - ss, i);
    }
  }


  // ---------------------------------------------------------------------------
  // The search phase of a fold

  /** The three sweeps of every subsample parse. */
  predicate AllParse(c: Context, weights: seq<seq<string>>, grids: PerAlgo<seq<string>>) {
    forall s :: 0 <= s < |weights| ==> SubsampleParses(c, grids, weights[s])
  }

  /** The three archives at the end of a search whose runs all parsed. */
  function Archives(c: Context, weights: seq<seq<string>>, grids: PerAlgo<seq<string>>): (r: PerAlgo<Lists>)
    requires Bounded(c) && AllParse(c, weights, grids)
    ensures AllShaped(r, grids, c.numTasks)
  {
    PerAlgo(Archived(grids.st, c.numTasks, SearchSels(c, St, weights, grids.st)),
            Archived(grids.np, c.numTasks, SearchSels(c, MsfanNp, weights, grids.np)),
            Archived(grids.ms, c.numTasks, SearchSels(c, Msfan, weights, grids.ms)))
  }

  /** The runs of one algorithm over its grid on one subsample's weight files, archiving each selection. */
  method Sweep(fs: FileStore, lists: Lists, c: Context, a: Algo, weights: seq<string>, grid: seq<string>)
    returns (ok: bool, lists': Lists)
    requires Bounded(c) && Shaped(lists, grid, c.numTasks)
    modifies fs
    ensures fs.files == old(fs.files)
    ensures ok <==> SweepParses(c, a, weights, grid)
    ensures ok ==> lists' == Swept(lists, c, a, weights, grid)
    ensures ok ==> fs.trace == old(fs.trace) + Runs(c, a, weights, grid)
  {
    lists' := lists;
    for g := 0 to |grid|
      invariant SweptUpTo(old(fs.files), old(fs.trace), fs.files, fs.trace, lists, lists', c, a, weights, grid, g)
    {
      var ok;
      ok, lists' := SweepRun(fs, lists, lists', c, a, weights, grid, g, old(fs.files), old(fs.trace));
      if !ok {
        return false, lists';
      }
    }
    SweptAllOf(old(fs.files), old(fs.trace), fs.files, fs.trace, lists, lists', c, a, weights, grid);
    return true, lists';
  }

  /**
    After the first `g` grid points: each parsed, the archive holds their selections, no file
    changed and one launch per point was recorded.
  */
  ghost predicate SweptUpTo(files0: map<string, string>, trace0: seq<Event>, files: map<string, string>, trace: seq<Event>,
                            lists: Lists, cur: Lists, c: Context, a: Algo, weights: seq<string>, grid: seq<string>, g: nat)
    requires Bounded(c) && Shaped(lists, grid, c.numTasks)
  {
    g <= |grid| && SweepParses(c, a, weights, grid[..g]) &&
    Fits(lists, grid[..g], SweepSels(c, a, weights, grid[..g])) &&
    cur == RecordAll(lists, grid[..g], SweepSels(c, a, weights, grid[..g])) &&
    files == files0 && trace == trace0 + Runs(c, a, weights, grid[..g])
  }

  lemma SweptAllOf(files0: map<string, string>, trace0: seq<Event>, files: map<string, string>, trace: seq<Event>,
                   lists: Lists, cur: Lists, c: Context, a: Algo, weights: seq<string>, grid: seq<string>)
    requires Bounded(c) && Shaped(lists, grid, c.numTasks)
    requires SweptUpTo(files0, trace0, files, trace, lists, cur, c, a, weights, grid, |grid|)
    ensures SweepParses(c, a, weights, grid) && cur == Swept(lists, c, a, weights, grid)
    ensures files == files0 && trace == trace0 + Runs(c, a, weights, grid)
  {
    assert grid[..|grid|] == grid;
  }

  lemma RunsStep(c: Context, a: Algo, weights: seq<string>, grid: seq<string>, g: nat)
    requires g < |grid|
    ensures Runs(c, a, weights, grid[..g + 1]) == Runs(c, a, weights, grid[..g]) + [Ran(Argv(c, a, weights, grid[g]))]
  {
    var x := Runs(c, a, weights, grid[..g + 1]);
    var y := Runs(c, a, weights, grid[..g]) + [Ran(Argv(c, a, weights, grid[g]))];
    forall i | 0 <= i < |x| ensures x[i] == y[i] {
      assert grid[..g + 1][i] == grid[i];
      if i < g {
        assert grid[..g][i] == grid[i];
      }
    }
  }

  lemma SweepSelsStep(c: Context, a: Algo, weights: seq<string>, grid: seq<string>, g: nat)
    requires Bounded(c) && g < |grid| && SweepParses(c, a, weights, grid[..g]) && Parses(c, a, weights, grid[g])
    ensures SweepParses(c, a, weights, grid[..g + 1])
    ensures SweepSels(c, a, weights, grid[..g + 1]) == SweepSels(c, a, weights, grid[..g]) + [c.run(a, weights, grid[g]).value]
  {
    var next := grid[..g + 1];
    forall i | 0 <= i < |next| ensures Parses(c, a, weights, next[i]) {
      if i < g {
        assert next[i] == grid[..g][i];
      }
    }
    var x := SweepSels(c, a, weights, next);
    var y := SweepSels(c, a, weights, grid[..g]) + [c.run(a, weights, grid[g]).value];
    forall i | 0 <= i < |x| ensures x[i] == y[i] {
      if i < g {
        assert next[i] == grid[..g][i];
      }
    }
  }

  /** Selections of a sweep fit an archive shaped for its grid. */
  lemma SweepFits(lists: Lists, c: Context, a: Algo, weights: seq<string>, grid: seq<string>, g: nat)
    requires Bounded(c) && Shaped(lists, grid, c.numTasks) && g <= |grid| && SweepParses(c, a, weights, grid[..g])
    ensures Fits(lists, grid[..g], SweepSels(c, a, weights, grid[..g]))
  {
    var sels := SweepSels(c, a, weights, grid[..g]);
    forall i | 0 <= i < g ensures grid[..g][i] in lists && |sels[i]| <= |lists[grid[..g][i]]| {
      assert grid[..g][i] == grid[i] && grid[i] in grid;
    }
  }

  /** Run of grid point `g`: launch the solver, parse its output and, on success, archive the selections. */
  method SweepRun(fs: FileStore, lists: Lists, cur: Lists, c: Context, a: Algo, weights: seq<string>, grid: seq<string>, g: nat,
                  ghost files0: map<string, string>, ghost trace0: seq<Event>)
    returns (ok: bool, next: Lists)
    requires Bounded(c) && Shaped(lists, grid, c.numTasks) && g < |grid|
    requires SweptUpTo(files0, trace0, fs.files, fs.trace, lists, cur, c, a, weights, grid, g)
    modifies fs
    ensures fs.files == old(fs.files)
    ensures ok <==> Parses(c, a, weights, grid[g])
    ensures !ok ==> !SweepParses(c, a, weights, grid)
    ensures ok ==> SweptUpTo(files0, trace0, fs.files, fs.trace, lists, next, c, a, weights, grid, g + 1)
  {
    RunsStep(c, a, weights, grid, g);
    fs.Launched(Argv(c, a, weights, grid[g]));
    var sels := c.run(a, weights, grid[g]);
    if sels.None? {
      return false, cur;
    }
    SweepSelsStep(c, a, weights, grid, g);
    SweepFits(lists, c, a, weights, grid, g + 1);
    assert grid[..g + 1][..g] == grid[..g];
    assert grid[g] in cur by {
      assert grid[g] in grid;
    }
    next := Record(cur, grid[g], sels.value);
    ok := true;
  }

  /** The three sweeps of one subsample parse. */
  predicate SubsampleParses(c: Context, grids: PerAlgo<seq<string>>, weights: seq<string>) {
    SweepParses(c, St, weights, grids.st) && SweepParses(c, MsfanNp, weights, grids.np) && SweepParses(c, Msfan, weights, grids.ms)
  }

  /** The three archives after the sweeps of one subsample. */
  function SweptAll(lists: PerAlgo<Lists>, c: Context, grids: PerAlgo<seq<string>>, weights: seq<string>): (r: PerAlgo<Lists>)
    requires Bounded(c) && AllShaped(lists, grids, c.numTasks) && SubsampleParses(c, grids, weights)
    ensures AllShaped(r, grids, c.numTasks)
  {
    PerAlgo(Swept(lists.st, c, St, weights, grids.st),
            Swept(lists.np, c, MsfanNp, weights, grids.np),
            Swept(lists.ms, c, Msfan, weights, grids.ms))
  }

  /** The launches of the three sweeps of one subsample, in order. */
  function SweepsTrace(c: Context, grids: PerAlgo<seq<string>>, weights: seq<string>): seq<Event> {
    Runs(c, St, weights, grids.st) + Runs(c, MsfanNp, weights, grids.np) + Runs(c, Msfan, weights, grids.ms)
  }

  lemma AppendAssoc<T>(t0: seq<T>, r1: seq<T>, r2: seq<T>, r3: seq<T>)
    ensures t0 + r1 + r2 + r3 == t0 + (r1 + r2 + r3)
  {
  }

  /** The three sweeps of one subsample, single-task first. */
  method SweepAll(fs: FileStore, lists: PerAlgo<Lists>, c: Context, grids: PerAlgo<seq<string>>, weights: seq<string>)
    returns (ok: bool, lists': PerAlgo<Lists>)
    requires Bounded(c) && AllShaped(lists, grids, c.numTasks)
    modifies fs
    ensures fs.files == old(fs.files)
    ensures ok <==> SubsampleParses(c, grids, weights)
    ensures ok ==> lists' == SweptAll(lists, c, grids, weights)
    ensures ok ==> fs.trace == old(fs.trace) + SweepsTrace(c, grids, weights)
  {
    lists' := lists;
    ghost var t0 := fs.trace;
    ghost var r1, r2, r3 := Runs(c, St, weights, grids.st), Runs(c, MsfanNp, weights, grids.np), Runs(c, Msfan, weights, grids.ms);
    var st, np, ms;
    ok, st := Sweep(fs, lists.st, c, St, weights, grids.st);
    if !ok {
      return;
    }
    ok, np := Sweep(fs, lists.np, c, MsfanNp, weights, grids.np);
    if !ok {
      return;
    }
    ok, ms := Sweep(fs, lists.ms, c, Msfan, weights, grids.ms);
    if !ok {
      return;
    }
    AppendAssoc(t0, r1, r2, r3);
    lists' := PerAlgo(st, np, ms);
  }

  /** The three sweeps of one subsample, then the removal of its weight files. */
  method SearchSubsample(fs: FileStore, lists: PerAlgo<Lists>, c: Context, grids: PerAlgo<seq<string>>, weights: seq<string>)
    returns (r: Result<PerAlgo<Lists>, FoldError>)
    requires Bounded(c) && AllShaped(lists, grids, c.numTasks)
    modifies fs
    ensures r.Success? <==> SubsampleParses(c, grids, weights) && Removable(old(fs.files), weights)
    ensures r.Success? ==> r.value == SweptAll(lists, c, grids, weights)
    ensures r.Success? ==> fs.files == old(fs.files) - Stability.AsSet(weights) &&
                           fs.trace == old(fs.trace) + SubsampleTrace(c, grids, weights)
  {
    var ok, swept := SweepAll(fs, lists, c, grids, weights);
    if !ok {
      return Failure(ValueError);
    }
    var missing := RemoveAll(fs, weights);
    if missing.Some? {
      return Failure(OSError(missing.value));
    }
    AppendAssoc3(old(fs.trace), SweepsTrace(c, grids, weights), Removals(weights));
    return Success(swept);
  }

  /** One more subsample of one algorithm's search: its sweep applied to the archive so far. */
  lemma ArchivedSearchStep(c: Context, a: Algo, weights: seq<seq<string>>, grid: seq<string>, ss: nat)
    requires Bounded(c) && ss < |weights| && forall s :: 0 <= s <= ss ==> SweepParses(c, a, weights[s], grid)
    ensures Archived(grid, c.numTasks, SearchSels(c, a, weights[..ss + 1], grid)) ==
            Swept(Archived(grid, c.numTasks, SearchSels(c, a, weights[..ss], grid)), c, a, weights[ss], grid)
  {
    var hist := SearchSels(c, a, weights[..ss + 1], grid);
    assert hist[..ss] == SearchSels(c, a, weights[..ss], grid);
    assert hist[ss] == SweepSels(c, a, weights[ss], grid);
  }

  lemma AllParseStep(c: Context, weights: seq<seq<string>>, grids: PerAlgo<seq<string>>, ss: nat)
    requires ss < |weights| && AllParse(c, weights[..ss], grids) && SubsampleParses(c, grids, weights[ss])
    ensures AllParse(c, weights[..ss + 1], grids)
    ensures forall s :: 0 <= s <= ss ==> SubsampleParses(c, grids, weights[s])
  {
    forall s | 0 <= s <= ss ensures SubsampleParses(c, grids, weights[s]) {
      if s < ss {
        assert weights[..ss][s] == weights[s];
      }
    }
  }

  /** One more subsample of the search: the three archives grow by its sweeps. */
  lemma ArchivesStep(c: Context, weights: seq<seq<string>>, grids: PerAlgo<seq<string>>, ss: nat)
    requires Bounded(c) && ss < |weights| && AllParse(c, weights[..ss + 1], grids)
    requires forall s :: 0 <= s <= ss ==> SubsampleParses(c, grids, weights[s])
    ensures Archives(c, weights[..ss + 1], grids) == SweptAll(Archives(c, weights[..ss], grids), c, grids, weights[ss])
  {
    ArchivedSearchStep(c, St, weights, grids.st, ss);
    ArchivedSearchStep(c, MsfanNp, weights, grids.np, ss);
    ArchivedSearchStep(c, Msfan, weights, grids.ms, ss);
  }

  lemma SearchTraceStep(c: Context, grids: PerAlgo<seq<string>>, weights: seq<seq<string>>, ss: nat)
    requires ss < |weights|
    ensures SearchTrace(c, grids, weights[..ss + 1]) == SearchTrace(c, grids, weights[..ss]) + SubsampleTrace(c, grids, weights[ss])
  {
    assert weights[..ss + 1][..ss] == weights[..ss];
  }

  lemma AppendAssoc3<T>(a: seq<T>, b: seq<T>, c: seq<T>)
    ensures a + b + c == a + (b + c)
  {
  }

  /** A trace that held the launches and removals of `ss` subsamples, extended by those of one more. */
  lemma SearchTraceGrows(trace0: seq<Event>, trace: seq<Event>, trace': seq<Event>,
                         c: Context, grids: PerAlgo<seq<string>>, weights: seq<seq<string>>, ss: nat)
    requires ss < |weights| && trace == trace0 + SearchTrace(c, grids, weights[..ss])
    requires trace' == trace + SubsampleTrace(c, grids, weights[ss])
    ensures trace' == trace0 + SearchTrace(c, grids, weights[..ss + 1])
  {
    SearchTraceStep(c, grids, weights, ss);
    AppendAssoc3(trace0, SearchTrace(c, grids, weights[..ss]), SubsampleTrace(c, grids, weights[ss]));
  }

  lemma NamesStep(weights: seq<seq<string>>, ss: nat)
    requires ss < |weights|
    ensures Names(weights[..ss + 1]) == Names(weights[..ss]) + weights[ss]
  {
    assert weights[..ss + 1][..ss] == weights[..ss];
  }

  /** The weight files of the first `k` subsamples are removable when all of them are. */
  lemma NamesPrefixRemovable(files: map<string, string>, weights: seq<seq<string>>, k: nat)
    requires k <= |weights| && Removable(files, Names(weights))
    ensures Removable(files, Names(weights[..k]))
  {
    assert weights == weights[..k] + weights[k..];
    NamesAppend(weights[..k], weights[k..]);
    RemovablePrefix(files, Names(weights), |Names(weights[..k])|);
    assert Names(weights)[..|Names(weights[..k])|] == Names(weights[..k]);
  }

  lemma AsSetAppend(a: seq<string>, b: seq<string>)
    ensures Stability.AsSet(a + b) == Stability.AsSet(a) + Stability.AsSet(b)
  {
  }

  /** Where subsample `ss` fails, the whole search fails. */
  lemma SearchFails(files: map<string, string>, c: Context, weights: seq<seq<string>>, grids: PerAlgo<seq<string>>, ss: nat)
    requires ss < |weights| && Removable(files, Names(weights[..ss]))
    requires !(SubsampleParses(c, grids, weights[ss]) && Removable(files - Stability.AsSet(Names(weights[..ss])), weights[ss]))
    ensures !(AllParse(c, weights, grids) && Removable(files, Names(weights)))
  {
    if AllParse(c, weights, grids) && Removable(files, Names(weights)) {
      NamesPrefixRemovable(files, weights, ss + 1);
      NamesStep(weights, ss);
      RemovableStep(files, Names(weights[..ss]), weights[ss]);
      assert false;
    }
  }

  /** The state after the first `ss` subsamples of a search that started from `files0` and `trace0`. */
  ghost predicate SearchedUpTo(files0: map<string, string>, trace0: seq<Event>, files: map<string, string>, trace: seq<Event>,
                               lists: PerAlgo<Lists>, c: Context, weights: seq<seq<string>>, grids: PerAlgo<seq<string>>, ss: nat)
  {
    ss <= |weights| && Bounded(c) &&
    AllParse(c, weights[..ss], grids) && Removable(files0, Names(weights[..ss])) &&
    lists == Archives(c, weights[..ss], grids) &&
    files == files0 - Stability.AsSet(Names(weights[..ss])) &&
    trace == trace0 + SearchTrace(c, grids, weights[..ss])
  }

  /** Subsample `ss` of the search: on success the search has covered one more subsample, on failure the whole search fails. */
  method SearchNext(fs: FileStore, lists: PerAlgo<Lists>, c: Context, weights: seq<seq<string>>, grids: PerAlgo<seq<string>>,
                    ss: nat, ghost files0: map<string, string>, ghost trace0: seq<Event>)
    returns (r: Result<PerAlgo<Lists>, FoldError>)
    requires ss < |weights| && SearchedUpTo(files0, trace0, fs.files, fs.trace, lists, c, weights, grids, ss)
    modifies fs
    ensures r.Success? ==> SearchedUpTo(files0, trace0, fs.files, fs.trace, r.value, c, weights, grids, ss + 1)
    ensures r.Failure? ==> !(AllParse(c, weights, grids) && Removable(files0, Names(weights)))
  {
    r := SearchSubsample(fs, lists, c, grids, weights[ss]);
    if r.Failure? {
      SearchFails(files0, c, weights, grids, ss);
      return;
    }
    SearchedStep(files0, trace0, old(fs.files), old(fs.trace), lists, c, weights, grids, ss, fs.files, fs.trace, r.value);
  }

  /** The weight files of one more subsample were removable, and are now gone too. */
  lemma RemovedStep(files0: map<string, string>, weights: seq<seq<string>>, ss: nat)
    requires ss < |weights| && Removable(files0, Names(weights[..ss]))
    requires Removable(files0 - Stability.AsSet(Names(weights[..ss])), weights[ss])
    ensures Removable(files0, Names(weights[..ss + 1]))
    ensures files0 - Stability.AsSet(Names(weights[..ss + 1])) ==
            files0 - Stability.AsSet(Names(weights[..ss])) - Stability.AsSet(weights[ss])
  {
    NamesStep(weights, ss);
    RemovableStep(files0, Names(weights[..ss]), weights[ss]);
    AsSetAppend(Names(weights[..ss]), weights[ss]);
  }

  lemma SearchedStep(files0: map<string, string>, trace0: seq<Event>, files: map<string, string>, trace: seq<Event>,
                     lists: PerAlgo<Lists>, c: Context, weights: seq<seq<string>>, grids: PerAlgo<seq<string>>, ss: nat,
                     files': map<string, string>, trace': seq<Event>, lists': PerAlgo<Lists>)
    requires ss < |weights| && SearchedUpTo(files0, trace0, files, trace, lists, c, weights, grids, ss)
    requires SubsampleParses(c, grids, weights[ss]) && Removable(files, weights[ss])
    requires lists' == SweptAll(lists, c, grids, weights[ss])
    requires files' == files - Stability.AsSet(weights[ss]) && trace' == trace + SubsampleTrace(c, grids, weights[ss])
    ensures SearchedUpTo(files0, trace0, files', trace', lists', c, weights, grids, ss + 1)
  {
    AllParseStep(c, weights, grids, ss);
    ArchivesStep(c, weights, grids, ss);
    SearchTraceGrows(trace0, trace, trace', c, grids, weights, ss);
    RemovedStep(files0, weights, ss);
  }

  /**
    The search phase of `run_fold`: the fresh archives, then for every subsample the three
    sweeps and the removal of its weight files. It succeeds exactly when every run parses
    and every weight file can be removed when its turn comes.
  */
  method SearchPhase(fs: FileStore, c: Context, weights: seq<seq<string>>, grids: PerAlgo<seq<string>>)
    returns (r: Result<PerAlgo<Lists>, FoldError>)
    requires Bounded(c)
    modifies fs
    ensures r.Success? <==> AllParse(c, weights, grids) && Removable(old(fs.files), Names(weights))
    ensures r.Success? ==> r.value == Archives(c, weights, grids)
    ensures r.Success? ==> fs.files == old(fs.files) - Stability.AsSet(Names(weights))
    ensures r.Success? ==> fs.trace == old(fs.trace) + SearchTrace(c, grids, weights)
  {
    var st := InitLists(grids.st, c.numTasks);
    var np := InitLists(grids.np, c.numTasks);
    var ms := InitLists(grids.ms, c.numTasks);
    var lists := PerAlgo(st, np, ms);
    assert weights[..0] == [];
    for ss := 0 to |weights|
      invariant SearchedUpTo(old(fs.files), old(fs.trace), fs.files, fs.trace, lists, c, weights, grids, ss)
    {
      r := SearchNext(fs, lists, c, weights, grids, ss, old(fs.files), old(fs.trace));
      if r.Failure? {
        return;
      }
      lists := r.value;
    }
    assert weights[..|weights|] == weights;
    return Success(lists);
  }
}

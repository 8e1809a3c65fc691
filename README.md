# sfan evaluation harness, modelled in Dafny

The sfan evaluation harness measures how well a feature-selection solver works on
synthetic data, comparing three variants:

- single-task sfan;
- multitask sfan without a precision matrix (`msfan_np`);
- multitask sfan with one (`msfan`).

For every cross-validation fold the harness does the following:

1. It draws subsamples of the samples.
2. On every subsample it runs each variant at every point of that variant's
   hyper-parameter grid, and archives the features selected for each task.
3. It scores each grid point by the Kuncheva consistency index of its archived
   selections and keeps the best point.
4. It writes the chosen points to files.
5. It reruns the solvers on the whole training set at those points and writes the
   selected features, one line per task.

Further helpers score selections against the causal features (ppv and tpr), re-order
predictions, and slice metric rows per task.

This project models that bookkeeping. The solver, the regression and the numeric plumbing
stay outside it. The model has these modules:

- `Stability`: the consistency index. It covers the pairwise index, the k-way mean over
  all unordered pairs, and the per-task index read from the fold files.
- `Gateway`: the solver calls as seen from the harness. It builds the argument vector and
  parses the captured output into 0-based selections. The solver itself is a function
  parameter.
- `Search`: the choice of the optimal grid point. It is a running maximum with a strict
  `>`, starting from `''` and 0.
- `Outcome`:
  - ppv/tpr scoring of selections, on boolean arrays marked in place;
  - the re-ordering of predictions by the folds' test indices;
  - the `row[t::k]` de-interleaving of metric rows.
- `Partition`: the `Framework` class, its folds and subsamples, and the block layout of
  `KFold`.
- `Experiments`: the harness script's pure parts and its file formats:
  - argument checks;
  - result-file names;
  - the single-task grid;
  - the tmp-weights list file, the parameter files and the selected-features files.
- `Files`: a `FileStore` class. It holds the file system as a map from names to contents,
  plus a trace of writes, removals and solver launches.
- `Fold` and `FoldOutput`: `run_fold` in its default configuration, in two parts:
  - the subsample search with its archive and weight-file removal;
  - the parameter choice, the output files and the final runs.
- `Text`: the Python string built-ins the harness relies on: `split`, `join`, `rstrip`,
  `int`/`str`, and line-by-line files.
- `Wrappers`: `Option` and `Result`.

Floating-point values are modelled as exact reals. The code is Python 2, so `/` on two
integers is floor division; the tpr is modelled that way.

## Model

| member | source | states |
|---|---|---|
| Stability.ConsistencyIndexSymmetric | code/evaluation_framework.py:34-42 | the index of two selections does not depend on their order |
| Stability.DegenerateCase | code/evaluation_framework.py:34-42 | expected overlap equals the largest possible overlap exactly when a selection is empty or holds all `n` features, and then the index is 0 |
| Stability.ConsistencyIndexAtMostOne | code/evaluation_framework.py:34-42 | selections of at most `n` features never score above 1 |
| Stability.ConsistencyIndexOfFeaturesAtMostOne | code/evaluation_framework.py:34-42 | selections of feature indices in [0, n) never score above 1 |
| Stability.SelfConsistency | code/evaluation_framework.py:34-42 | a non-degenerate selection scores exactly 1 against itself |
| Stability.ConsistencyIndexExample | code/evaluation_framework.py:34-42 | {1,2,3} against {2,3,4} among 10 features is 11/21 |
| Stability.ExpectedVersusMax | code/evaluation_framework.py:35-40 | the expected overlap `a*b/n` never exceeds `min(a, b)`, with equality exactly in the degenerate cases |
| Stability.AddRow | code/evaluation_framework.py:72-73 | the inner loop adds to the accumulator the indices of one selection against each later selection |
| Stability.ConsistencyIndexK | code/evaluation_framework.py:67-76 | the nested loop and final scaling compute the k-way index |
| Stability.KIndexIsMean | code/evaluation_framework.py:67-76 | the k-way index is the mean of the pairwise indices over the k(k-1)/2 unordered pairs |
| Stability.KIndexOfTwo | code/evaluation_framework.py:67-76 | with exactly two selections the k-way index is the pairwise index |
| Stability.KIndexOfCopies | code/evaluation_framework.py:67-76 | k >= 2 copies of one non-degenerate selection have k-way index 1 |
| Stability.KIndexAtMostOne | code/evaluation_framework.py:67-76 | selections of feature indices in [0, n) have a k-way index of at most 1 |
| Stability.FirstMissing | code/evaluation_framework.py:109-112 | opening the fold files in order stops at the first missing one: all files before it exist |
| Stability.FoldTokens | code/evaluation_framework.py:118-122 | the selection list of task `t` has one entry per fold: line `t` of that fold's file split on whitespace |
| Stability.ReadTask | code/evaluation_framework.py:118-122 | the per-fold reading loop yields exactly that task's token lists |
| Stability.IndicesAt | code/evaluation_framework.py:115-126 | entry `t` of the index list is the k-way index of task `t`'s selections |
| Stability.IndexTasks | code/evaluation_framework.py:115-131 | with every file present, the task loop returns the k-way index of every task in order, and raises ZeroDivisionError exactly when there are tasks but fewer than two folds |
| Stability.ConsistencyIndexTask | code/evaluation_framework.py:79-131 | an IOError names the first missing fold file and occurs exactly when one is missing; otherwise the result is ZeroDivisionError exactly when there are tasks and fewer than two folds, and on success it is the per-task k-way indices |
| Gateway.Window | code/evaluation_framework.py:171 | the slice `lines[lo:lo+count]` with Python's clipping: element `i` is `lines[lo+i]`, and it is empty exactly when `count` is 0 or the list is too short |
| Gateway.ParseLine | code/evaluation_framework.py:175 | a line parses exactly when every token is an integer, giving one 0-based index per token |
| Gateway.ParseLines | code/evaluation_framework.py:175 | all lines parse exactly when each does, line `i` giving selection `i` |
| Gateway.NoSelections | code/evaluation_framework.py:177-180 | the fallback is `numTasks` empty selections, one per task |
| Gateway.ParseSelections | code/evaluation_framework.py:171-180 | at most `numTasks` selections, exactly `numTasks` when the output is long enough; an output with no line at the offset gives the empty fallback; selection `t` parses line `offset + t`; the result is a list exactly when every line of the window parses, and then it holds one selection per window line (all `numTasks` of them, or as many as the output still has after the offset); a failure names a line in the window that does not parse |
| Gateway.ParseSelectionsRoundTrip | code/evaluation_framework.py:171-180 | an output of newline-free header lines followed by the 1-based selection lines parses back to exactly the selections |
| Gateway.EmptyOutputFallback | code/evaluation_framework.py:213-221 | an empty output gives `numTasks` empty selections at offsets 2 and 3 alike |
| Gateway.ParseSelectionsExample | code/evaluation_framework.py:171-180 | `"header\nheader2\n1 3 5\n2 4\n"` at offset 2 for two tasks gives `[[0,2,4],[1,3]]` |
| Gateway.ParseLineOfFormat | code/evaluation_framework.py:175 | a line printing the 1-based indices of a selection parses back to the 0-based selection |
| Gateway.SfanArgvIsNoCorrWithoutMu | code/evaluation_framework.py:162-168 | the single-task argument vector for a grid point stripped of `-m mu` is the no-correlation vector for the full point, with its last argument replaced by `0` |
| Search.TaskScores | code/evaluation_framework.py:293-295 | one score per task: the k-way index of that task's selections, tagged with the grid point |
| Search.ScoresMembers | code/evaluation_framework.py:291-299 | the visited scores are exactly the k-way indices of every (grid point, task) pair |
| Search.PickFrom | code/evaluation_framework.py:294-298 | the running maximum is at least its start and every visited score; it changes only to a strictly larger score |
| Search.PickFromAppend | code/evaluation_framework.py:291-299 | running the maximum over two lists in turn is running it over their concatenation |
| Search.ScanTasks | code/evaluation_framework.py:294-298 | the inner loop updates the running maximum over the tasks of one grid point |
| Search.OptimalParameters | code/evaluation_framework.py:291-299 | the nested loop returns the grid point of the running maximum over all pairs in iteration order |
| Search.OptimalIsMaximal | code/evaluation_framework.py:291-299 | no pair scores above the chosen score, and if none scores above 0 the result is `''` |
| Search.OptimalIsAttained | code/evaluation_framework.py:291-299 | the result is either `''` with score 0, or a key one of whose tasks attains the chosen score, which is above 0 |
| Search.FirstMaximumWins | code/evaluation_framework.py:294-298 | for any list of scores, the pair picked is the first one that beats the start and every earlier score, as long as no later score beats it: a later pair with an equal score never wins |
| Outcome.Position | code/evaluation_framework.py:477 | a valid Python index designates position `idx mod n`, also for negative indices |
| Outcome.Mask | code/evaluation_framework.py:469-482 | position `p` is True exactly when some listed index designates it |
| Outcome.Mark | code/evaluation_framework.py:476-482 | marking in place succeeds exactly when every index is valid, and then leaves the array equal to the mask |
| Outcome.SamePositionsSameMask | code/evaluation_framework.py:469-482 | selections that designate the same positions have the same mask |
| Outcome.Agree | code/evaluation_framework.py:488-491 | the agreement count is at most the length, and equals it exactly when the vectors are equal |
| Outcome.CountAgree | code/evaluation_framework.py:488-491 | the counting loop returns the number of agreeing positions |
| Outcome.Ratio | code/evaluation_framework.py:486-492 | `c/n` as a fraction lies in [0,1] and is 1 exactly when `c == n`; as a Python 2 integer quotient it is 1 or 0 |
| Outcome.LineScoreRange | code/evaluation_framework.py:486-492 | ppv lies in [0,1]; tpr is 1 exactly when the two masks are equal and 0 otherwise, and ppv is 1 exactly when the masks are equal |
| Outcome.PerfectSelection | code/evaluation_framework.py:469-492 | selecting exactly the causal features scores ppv 1 and tpr 1 |
| Outcome.ScoreLine | code/evaluation_framework.py:469-492 | the loop body scores one causal line against its task's selection, or raises ValueError or IndexError |
| Outcome.Collect | code/evaluation_framework.py:465-492 | gathering the per-line outcomes in order: a successful gathering of `k` outcomes holds `k` values |
| Outcome.CollectAt | code/evaluation_framework.py:465-492 | in a successful gathering, value `t` is outcome `t` |
| Outcome.CollectFailurePersists | code/evaluation_framework.py:465-492 | once an outcome is an error, later outcomes do not change the gathering |
| Outcome.ScoresUpTo | code/evaluation_framework.py:465-492 | a successful run over `k` lines yields `k` scores |
| Outcome.ScoresUpToAt | code/evaluation_framework.py:465-492 | on success, selection `t` exists and score `t` is line `t` scored against it |
| Outcome.ScoresUpToPerLine | code/evaluation_framework.py:465-492 | on success there is a selection for every causal line, and score `t` is line `t` against selection `t` |
| Outcome.FailurePersists | code/evaluation_framework.py:465-492 | once a line raises, later lines do not change the result |
| Outcome.ScoreLines | code/evaluation_framework.py:465-492 | the line loop returns equally long ppv and tpr lists that are the per-line scores, or the first error raised |
| Outcome.PpvSensitivity | code/evaluation_framework.py:438-494 | `compute_ppv_sensitivity` on the lines of the causal file: the per-line scores in order, or the first error |
| Outcome.Reorder | code/evaluation_framework.py:428 | re-ordering succeeds exactly when every index is valid, and entry `j` is the prediction at index `j` |
| Outcome.ReorderIdentity | code/evaluation_framework.py:428 | re-ordering through 0..n-1 leaves the predictions unchanged |
| Outcome.ReorderComputedFolds | code/evaluation_framework.py:419-428 | when the test blocks are those `compute_indices` produces, the flattened test indices are 0..n-1 and re-ordering leaves the predictions unchanged |
| Outcome.StrideIndex | code/evaluation_framework.py:539 | element `j` of `row[t::k]` is `row[t + j*k]` |
| Outcome.StrideCount | code/evaluation_framework.py:539 | `row[t::k]` has `c` elements when `t + (c-1)k` is in the row and `t + ck` is not |
| Outcome.TaskSlices | code/evaluation_framework.py:537-539 | one slice per task, slice `t` being `row[t::numTasks]` |
| Outcome.TaskSlicesPartition | code/evaluation_framework.py:537-539 | for a row of `numTasks*numFolds` values every slice has `numFolds` elements, and every value of the row lies in exactly the slice and place its position determines |
| Outcome.TaskSlicesExample | code/evaluation_framework.py:537-539 | `[0.1,0.2,0.3,0.4]` with two tasks gives `[0.1,0.3]` and `[0.2,0.4]` |
| Partition.Range | code/evaluation_framework.py:620 | `arange(lo, hi)`: element `k` is `lo + k` |
| Partition.Without | code/evaluation_framework.py:620 | the complement of a set in [0, n): exactly the non-excluded indices, ascending |
| Partition.KFoldCheck | code/evaluation_framework.py:620 | `KFold` accepts exactly when 2 <= folds <= samples |
| Partition.FoldStartClosed | code/evaluation_framework.py:620 | block `j` starts at `j*(n/f) + min(j, n%f)`: the first `n%f` blocks hold one element more |
| Partition.FoldStartEnd | code/evaluation_framework.py:620 | the `f` blocks end exactly at `n` |
| Partition.TestBlock | code/evaluation_framework.py:620-623 | the test indices of fold `j` are a contiguous ascending block in [0, n) of the `KFold` size |
| Partition.TrainTestPartition | code/evaluation_framework.py:620-623 | train and test of a fold are ascending, disjoint, and together cover [0, n) |
| Partition.TrainIsComplement | code/evaluation_framework.py:620-623 | train is the two ranges on either side of the test block |
| Partition.BlocksCover | code/evaluation_framework.py:620-623 | the first `k` test blocks laid end to end are 0..start(k)-1 |
| Partition.TestBlocksConcatenate | code/evaluation_framework.py:620-623 | the test blocks of all folds concatenate to 0..n-1 |
| Partition.TenSamplesFiveFolds | code/evaluation_framework.py:620-623 | ten samples in five folds: each test block holds two consecutive samples |
| Partition.Subsample | code/evaluation_framework.py:626-628 | a subsample is ascending, within [0, n), and holds exactly the samples outside its block of the shuffled order |
| Partition.Subsamples | code/evaluation_framework.py:626-628 | one subsample per subsample fold, in order |
| Partition.SubsampleSize | code/evaluation_framework.py:626-628 | a subsample keeps `n` minus the size of its left-out block |
| Partition.ExcludedCount | code/evaluation_framework.py:626-628 | removing a set of indices from [0, n) leaves `n` minus its size |
| Partition.Framework.constructor | code/evaluation_framework.py:594-597 | a fresh framework stores its three sizes and holds one slot of three empty lists per fold |
| Partition.Framework.AppendSubsamples | code/evaluation_framework.py:626-628 | the inner loop appends exactly the subsamples of the given shuffle to fold `i`, leaving every other fold alone |
| Partition.Framework.ComputeIndices | code/evaluation_framework.py:620-628 | a bad fold count changes nothing; a bad subsample count fails after fold 0's train and test are set; otherwise every fold gets its train and test lists and gains its subsample lists |
| Partition.SubsampleLeaksTestSamples | code/evaluation_framework.py:626 | with 4 samples, 2 folds and the identity shuffle, a subsample of fold 0 is exactly fold 0's test block |
| Partition.TrainSubsample | code/evaluation_framework.py:626 | subsamples drawn from the training samples are as many as over `n` samples, and are training samples |
| Partition.TrainSubsampleAvoidsTest | code/evaluation_framework.py:626 | subsamples drawn from the training samples never contain a test sample of the fold |
| Experiments.CheckArguments | code/synthetic_data_experiments.py:85-127 | arguments are accepted exactly when every check passes; a rejection names a failing check, and every earlier check passes |
| Experiments.MissingFoldsRejected | code/synthetic_data_experiments.py:85-127 | a missing fold count is rejected at its own check when the earlier options are fine |
| Experiments.AnalysisFilesNames | code/synthetic_data_experiments.py:186-243 | every (measure, algorithm) key maps to `resu_dir/simu_id.<algo>.<measure>`, and there are no other keys |
| Experiments.AnalysisFilesKeys | code/synthetic_data_experiments.py:218-243 | the keys are exactly those of the 24 (measure, algorithm) pairs |
| Experiments.AnalysisFilesCount | code/synthetic_data_experiments.py:218-243 | there are exactly 24 entries |
| Experiments.AnalysisFilesDistinct | code/synthetic_data_experiments.py:186-243 | no two entries name the same file |
| Experiments.KeysDistinct | code/synthetic_data_experiments.py:218-243 | different (measure, algorithm) pairs have different keys |
| Experiments.FileNameInjective | code/synthetic_data_experiments.py:186-216 | different (measure, algorithm) pairs have different file names |
| Experiments.DropLastTwo | code/synthetic_data_experiments.py:321 | `ws[:-2]`: all but the last two tokens, nothing when there are fewer than two |
| Experiments.SingleTaskGrid | code/synthetic_data_experiments.py:321-322 | the single-task grid has one point per multitask point |
| Experiments.SingleTaskGridWords | code/synthetic_data_experiments.py:321-322 | each single-task point's tokens are its multitask point's tokens minus the last two |
| Experiments.SingleTaskGridIsMuZero | code/synthetic_data_experiments.py:321-322 | a single-task call at derived point `i` has the argument vector of the no-correlation call at point `i`, with `mu` replaced by 0 |
| Experiments.SaveTmpWeightsFnames | code/synthetic_data_experiments.py:403-406 | the list file now holds one line per subsample, the other files are unchanged, and one write is recorded |
| Experiments.FetchTmpWeightsFnames | code/synthetic_data_experiments.py:426-428 | reading succeeds exactly when the list file exists |
| Experiments.TmpWeightsRoundTrip | code/synthetic_data_experiments.py:403-428 | fetching after saving gives back the original names when each is a non-empty whitespace-free token |
| Experiments.ReadParameters | code/synthetic_data_experiments.py:501-511 | reading succeeds exactly when the file exists, and gives a prefix of its contents |
| Experiments.ParametersRoundTrip | code/synthetic_data_experiments.py:641-651 | a parameter string written without a newline reads back unchanged exactly when it has no trailing whitespace |
| Experiments.WriteSelections | code/synthetic_data_experiments.py:704-707 | the file now holds one line per task of space-joined indices, and one write is recorded |
| Experiments.SelectionsReadBack | code/synthetic_data_experiments.py:700-723 | line `t` of a selected-features file splits into the decimal strings of task `t`'s selection, which parse back to it; past the last task the line is empty |
| Experiments.FoldTokensOfSelections | code/synthetic_data_experiments.py:700-723 | the tokens `consistency_index_task` reads for task `t` from the folds' files are the decimal strings of each fold's selection for that task |
| Text.WordsOfJoin | code/synthetic_data_experiments.py:406 | splitting a space-joined list of tokens gives the tokens back |
| Text.FormatIntsRoundTrip | code/synthetic_data_experiments.py:707 | a line of space-joined integers splits into their decimal strings and parses back to them |
| Text.ParseIntOfString | code/evaluation_framework.py:475 | `int(str(x)) == x` for every integer |
| Text.SplitOfLinesText | code/evaluation_framework.py:171 | a text written line by line splits on newlines into its lines and one final empty piece |
| Text.FileLinesOfLinesText | code/synthetic_data_experiments.py:428 | reading a file written line by line gives the lines back |
| Text.RStripIdentity | code/synthetic_data_experiments.py:503 | `rstrip` is the identity exactly on strings without trailing whitespace |
| Files.FileStore.Write | code/synthetic_data_experiments.py:642-643 | the file holds exactly the new content, nothing else changes, and one write is recorded |
| Files.FileStore.Append | code/synthetic_data_experiments.py:707 | the content goes at the end of an open file |
| Files.FileStore.Remove | code/synthetic_data_experiments.py:618 | removal succeeds exactly when the file exists; it is then gone and the removal is recorded |
| Fold.WireIsRun | code/synthetic_data_experiments.py:557-603 | the fold's three calls are `run_sfan`, `run_msfan_nocorr` and `run_msfan` on the same arguments |
| Fold.Fresh | code/synthetic_data_experiments.py:526-540 | the initial archive maps every grid point to one empty list per task |
| Fold.FreshKeys | code/synthetic_data_experiments.py:526-540 | the initial archive has exactly the grid points as keys |
| Fold.InitLists | code/synthetic_data_experiments.py:529-540 | the initialisation loop builds that archive |
| Fold.Record | code/synthetic_data_experiments.py:561-562 | task `t`'s selection is appended to the grid point's list for task `t`, and nothing else changes |
| Fold.RecordAll | code/synthetic_data_experiments.py:553-603 | recording never changes the key set or the number of task lists |
| Fold.RecordAllDistinct | code/synthetic_data_experiments.py:553-603 | over a repetition-free grid, each point gets its own selection appended and every other key is left alone |
| Fold.ArchivedInOrder | code/synthetic_data_experiments.py:547-603 | when every call reports on every task, each archive list holds one selection per subsample, in subsample order |
| Fold.Sweep | code/synthetic_data_experiments.py:553-562 | one grid loop succeeds exactly when every call parses; the archive then holds the sweep's selections, no file changes, and one launch per grid point is recorded |
| Fold.SweepRun | code/synthetic_data_experiments.py:557-562 | one grid point's call: it succeeds exactly when the output parses, and then the sweep state covers one more point |
| Fold.SweepAll | code/synthetic_data_experiments.py:553-612 | the three grid loops of a subsample, single-task first |
| Fold.RemoveAll | code/synthetic_data_experiments.py:617-618 | removing a list of files succeeds exactly when they are all present and distinct; they are then gone and each removal is recorded, and a failure names a listed file |
| Fold.RemovalsFollowRuns | code/synthetic_data_experiments.py:547-618 | within a subsample no weight file is removed before a solver launch |
| Fold.LaterWeightsPresent | code/synthetic_data_experiments.py:616-618 | when all weight files can be removed, every file of subsample `ss` and of later subsamples is still present when subsample `ss` starts |
| Fold.SearchSubsample | code/synthetic_data_experiments.py:547-618 | one subsample iteration: the three sweeps, then the removal of its weight files, succeeding exactly when both do |
| Fold.SearchPhase | code/synthetic_data_experiments.py:547-620 | the whole search succeeds exactly when every call parses and every weight file can be removed; the archives, the removed files and the trace are then those of all subsamples in order |
| FoldOutput.BestIsOptimal | code/synthetic_data_experiments.py:626-631 | the chosen point of an archive scores at least every (grid point, task) pair, and is `''` or a key |
| FoldOutput.ChooseParameters | code/synthetic_data_experiments.py:626-631 | the three choices, failing with ZeroDivisionError exactly when an archive cannot be scored |
| FoldOutput.WriteParameters | code/synthetic_data_experiments.py:641-651 | the three parameter files, single-task first |
| FoldOutput.OutputNamesDistinct | code/synthetic_data_experiments.py:641-723 | the six output files have six different names |
| FoldOutput.OutputsWritten | code/synthetic_data_experiments.py:641-723 | each parameter file holds its grid point, each selected-features file its selections one task per line, and every other file is unchanged |
| FoldOutput.FinalRuns | code/synthetic_data_experiments.py:662-671 | the three final runs on the whole training set succeed exactly when all parse, returning their selections, and otherwise raise ValueError |
| FoldOutput.WriteAllSelections | code/synthetic_data_experiments.py:700-723 | the three selected-features files, single-task first |
| FoldOutput.RunFold | code/synthetic_data_experiments.py:431-723 | `run_fold` succeeds exactly when the search, the scoring and the final runs do; the chosen points are those of the archives, the selections those of the final runs; the files and the trace are those of the search, the parameter writes, the final runs and the selection writes, in that order |

## Left out

- Launching the solver (`subprocess.Popen`) is not modelled. The solver is a function from
  argument vector to captured output (`Gateway.Solver`). `run_fold` sees it through
  `Fold.Context.run`, which `Fold.Wire` connects to the three gateway calls.
- Batch submission with `qsub`, and the `main`/`run_repeat` drivers, are left out. So are
  the HDF5 reads, the Pearson scores and the creation of the temporary weight files.
  These are I/O and floating-point numerics outside the core.
- The ridge regression, the RMSE value and `np.mean`/`np.std` are float numerics and are
  left out. Only the index re-ordering and the slicing are modelled.
- `run_fold` unpacks three values from each solver call, but `run_sfan` and its siblings
  return only the selections (code/evaluation_framework.py:181). The model follows the
  gateway functions, so a call returns selections only.
- The process-time and max-RSS appends that use those extra values are left out, and so
  are the timing files written after the final runs.
- The `DEBUG_MODE` and `TIME_EXP` branches of `run_fold` are left out. Only the default
  configuration is modelled; `Experiments.ReadParameters` covers the file reads of the
  `TIME_EXP` branch.
- The `pdb` breakpoints on empty selections, logging, `print`, directory creation, data
  generation and `save_indices` are left out.
- The random shuffle of the subsample `KFold` is an input permutation.
- Python 2 dict iteration order is an input sequence (`FoldOutput.OrderFits`). The inner
  per-task dict, keyed 0 .. num_tasks - 1, is a sequence.
- `run_fold`'s grids are inputs. The solver's own grid generator is not part of this
  model; `Experiments.SingleTaskGrid` derives the single-task grid from it.
- Fold.Shaped states only that every grid point is a key with one list per task. It does
  not state that the archive has no other keys, because the search never adds one.
- Fold.ArchivedInOrder requires a grid without repeated points. With a repeated point,
  Python appends that point's selections once per occurrence.
- Floats (ppv, indices, predictions) are exact reals, so rounding is not modelled.
- `sklearn.metrics.accuracy_score` is not part of this model. On two boolean lists of equal
  length it is the fraction of agreeing positions, and the model computes that fraction.

## Findings

| source | as written | input that shows it | evidently intended | confidence | as-written member | corrected member |
|---|---|---|---|---|---|---|
| code/evaluation_framework.py:626 | the subsample `KFold` of each fold runs over all `num_samples` samples, so subsamples can contain the fold's test samples | 4 samples, 2 folds, identity shuffle: subsample 1 of fold 0 is `[0, 1]`, fold 0's test block | subsamples drawn from the fold's training samples only | medium, not executed | Partition.SubsampleLeaksTestSamples | Partition.TrainSubsampleAvoidsTest |

`Partition.Framework.ComputeIndices` keeps the behaviour as written, drawing subsamples
over all samples. `Partition.TrainSubsample` is the corrected draw, over the fold's training
samples.

/**
  The gateway to the external `multitask_sfan.py` solver (`run_sfan`, `run_msfan_nocorr`,
  `run_msfan` in code/evaluation_framework.py): the argument vector handed to the process,
  and the parsing of the captured standard output into per-task selections of 0-based
  feature indices. The process itself is a function parameter from argument vector to
  captured output.
*/
module Gateway {
  import opened Wrappers
  import opened Text

  /** The external solver: argument vector to captured standard output. */
  type Solver = seq<string> -> string

  /** The argument vector common to the three solver variants, up to `--node_weights`. */
  function SolverHead(numTasks: int, network: string): seq<string> {
    ["python", "multitask_sfan.py", "--num_tasks", IntToString(numTasks), "--networks", network, "--node_weights"]
  }

  /** Single-task runs: the weights, the grid point's tokens, and a correlation weight forced to 0. */
  function SfanArgv(numTasks: int, network: string, weights: seq<string>, params: string): seq<string> {
    SolverHead(numTasks, network) + weights + Words(params) + ["-m", "0"]
  }

  /** Multitask runs without a precision matrix: the grid point's tokens as given. */
  function NoCorrArgv(numTasks: int, network: string, weights: seq<string>, params: string): seq<string> {
    SolverHead(numTasks, network) + weights + Words(params)
  }

  /** Multitask runs with a precision matrix between the weights and the grid point. */
  function MsfanArgv(numTasks: int, network: string, weights: seq<string>, precision: string, params: string): seq<string> {
    SolverHead(numTasks, network) + weights + ["--precision_matrix", precision] + Words(params)
  }

  /** `lines[lo:lo + count]` with Python's clipping of both bounds to the list. */
  function Window(lines: seq<string>, lo: nat, count: nat): (w: seq<string>)
    ensures |w| <= count
    ensures lo + count <= |lines| ==> w == lines[lo..lo + count]
    ensures |w| == 0 <==> (count == 0 || |lines| <= lo)
    ensures forall i :: 0 <= i < |w| ==> lo + i < |lines| && w[i] == lines[lo + i]
  {
    if |lines| <= lo then []
    else if lo + count <= |lines| then lines[lo..lo + count]
    else lines[lo..]
  }

  /** `[int(x) - 1 for x in line.split()]`: `None` where `int` raises ValueError. */
  function ParseLine(line: string): (r: Option<seq<int>>)
    ensures r.Some? <==> ParseInts(Words(line)).Some?
    ensures r.Some? ==> (|r.value| == |Words(line)| &&
              forall i :: 0 <= i < |r.value| ==> ParseInt(Words(line)[i]) == Some(r.value[i] + 1))
  {
    match ParseInts(Words(line))
    case None => None
    case Some(xs) => Some(seq(|xs|, i requires 0 <= i < |xs| => xs[i] - 1))
  }

  /** Parse every line of `lines`, failing on the first line that does not parse. */
  function ParseLines(lines: seq<string>): (r: Option<seq<seq<int>>>)
    ensures r.Some? <==> forall i :: 0 <= i < |lines| ==> ParseLine(lines[i]).Some?
    ensures r.Some? ==> |r.value| == |lines| && forall i :: 0 <= i < |lines| ==> ParseLine(lines[i]) == Some(r.value[i])
  {
    if lines == [] then Some([])
    else
      match (ParseLine(lines[0]), ParseLines(lines[1..]))
      case (Some(x), Some(xs)) => Some([x] + xs)
      case _ => None
  }

  /**
    One empty list per task: the fallback when the output window is empty, and each grid
    point's entry in a freshly initialised archive.
  */
  function NoSelections<T>(numTasks: nat): (r: seq<seq<T>>)
    ensures |r| == numTasks && forall t :: 0 <= t < numTasks ==> r[t] == []
  {
    seq(numTasks, _ => [])
  }

  /**
    The selections in a captured output: lines `offset .. offset + numTasks - 1` of the
    output split on newlines, each token shifted from 1-based to 0-based. An empty window
    gives `numTasks` empty selections; a token that is not an integer is a ValueError (`None`).
  */
  function ParseSelections(stdout: string, offset: nat, numTasks: nat): (r: Option<seq<seq<int>>>)
    ensures r.Some? ==> |r.value| <= numTasks && (numTasks > 0 ==> |r.value| >= 1)
    ensures |Split(stdout, '\n')| <= offset ==> r == Some(NoSelections(numTasks))
    ensures offset + numTasks <= |Split(stdout, '\n')| && r.Some? ==> |r.value| == numTasks
    ensures r.Some? && offset < |Split(stdout, '\n')| ==>
              forall t :: 0 <= t < |r.value| ==>
                offset + t < |Split(stdout, '\n')| && ParseLine(Split(stdout, '\n')[offset + t]) == Some(r.value[t])
    ensures r.None? ==>
              exists t :: offset <= t < |Split(stdout, '\n')| && t < offset + numTasks && ParseLine(Split(stdout, '\n')[t]).None?
    ensures offset < |Split(stdout, '\n')| ==>
              (r.Some? <==> forall t :: offset <= t < |Split(stdout, '\n')| && t < offset + numTasks ==>
                                          ParseLine(Split(stdout, '\n')[t]).Some?)
    ensures r.Some? && offset < |Split(stdout, '\n')| ==>
              |r.value| == if |Split(stdout, '\n')| - offset < numTasks then |Split(stdout, '\n')| - offset else numTasks
  {
    var w := Window(Split(stdout, '\n'), offset, numTasks);
    if w == [] then Some(NoSelections(numTasks)) else ParseLines(w)
  }

  /** `run_sfan`: single-task solver call, selections start on the third output line. */
  function RunSfan(solver: Solver, numTasks: nat, network: string, weights: seq<string>, params: string): Option<seq<seq<int>>> {
    ParseSelections(solver(SfanArgv(numTasks, network, weights, params)), 2, numTasks)
  }

  /** `run_msfan_nocorr`: multitask solver call, selections start on the fourth output line. */
  function RunMsfanNocorr(solver: Solver, numTasks: nat, network: string, weights: seq<string>, params: string): Option<seq<seq<int>>> {
    ParseSelections(solver(NoCorrArgv(numTasks, network, weights, params)), 3, numTasks)
  }

  /** `run_msfan`: multitask solver call with a precision matrix, selections from the fourth output line. */
  function RunMsfan(solver: Solver, numTasks: nat, network: string, weights: seq<string>, precision: string, params: string): Option<seq<seq<int>>> {
    ParseSelections(solver(MsfanArgv(numTasks, network, weights, precision, params)), 3, numTasks)
  }

  /** `[x + 1 for x in sel]`: a 0-based selection as the solver prints it. */
  function OneBased(sel: seq<int>): (r: seq<int>)
    ensures |r| == |sel| && forall i :: 0 <= i < |sel| ==> r[i] == sel[i] + 1
  {
    seq(|sel|, i requires 0 <= i < |sel| => sel[i] + 1)
  }

  /** The output lines a solver prints for `sels`: one line of 1-based indices per task. */
  function SolverLines(sels: seq<seq<int>>): (ls: seq<string>)
    ensures |ls| == |sels| && forall t :: 0 <= t < |sels| ==> ls[t] == FormatInts(OneBased(sels[t]))
  {
    seq(|sels|, t requires 0 <= t < |sels| => FormatInts(OneBased(sels[t])))
  }

  lemma ParseLineOfFormat(sel: seq<int>)
    ensures ParseLine(FormatInts(OneBased(sel))) == Some(sel)
  {
    FormatIntsRoundTrip(OneBased(sel));
    var r := ParseLine(FormatInts(OneBased(sel)));
    assert r.value == sel;
  }

  /**
    Round trip: an output made of `offset` header lines followed by one line of 1-based
    indices per task parses back to the 0-based selections, one per task.
  */
  lemma ParseSelectionsRoundTrip(headers: seq<string>, sels: seq<seq<int>>)
    requires forall i :: 0 <= i < |headers| ==> '\n' !in headers[i]
    requires |sels| >= 1
    ensures ParseSelections(LinesText(headers + SolverLines(sels)), |headers|, |sels|) == Some(sels)
  {
    var body := SolverLines(sels);
    forall t | 0 <= t < |body| ensures '\n' !in body[t] {
      FormatIntsRoundTrip(OneBased(sels[t]));
    }
    WindowAfterHeaders(headers, body);
    ParseLinesOfSolverLines(sels);
  }

  /** The window after the header lines of a newline-joined text is exactly the lines that follow them. */
  lemma WindowAfterHeaders(headers: seq<string>, body: seq<string>)
    requires forall i :: 0 <= i < |headers| ==> '\n' !in headers[i]
    requires forall i :: 0 <= i < |body| ==> '\n' !in body[i]
    ensures Window(Split(LinesText(headers + body), '\n'), |headers|, |body|) == body
  {
    var lines := headers + body;
    SplitOfLinesText(lines);
    var parts := lines + [""];
    assert parts[|headers|..|headers| + |body|] == body;
  }

  lemma ParseLinesOfSolverLines(sels: seq<seq<int>>)
    ensures ParseLines(SolverLines(sels)) == Some(sels)
  {
    var body := SolverLines(sels);
    forall t | 0 <= t < |body| ensures ParseLine(body[t]) == Some(sels[t]) {
      ParseLineOfFormat(sels[t]);
    }
    var r := ParseLines(body);
    assert r.Some?;
    assert r.value == sels;
  }

  /** An output with no selection lines at all (e.g. a solver that printed nothing) gives empty selections. */
  lemma EmptyOutputFallback(offset: nat, numTasks: nat)
    requires offset >= 1
    ensures ParseSelections("", offset, numTasks) == Some(NoSelections(numTasks))
  {
    assert Split("", '\n') == [""];
  }

  lemma ExampleSolverLines()
    ensures SolverLines([[0, 2, 4], [1, 3]]) == ["1 3 5", "2 4"]
  {
    var sels := [[0, 2, 4], [1, 3]];
    assert OneBased(sels[0]) == [1, 3, 5];
    assert OneBased(sels[1]) == [2, 4];
    assert IntStrings([1, 3, 5]) == ["1", "3", "5"];
    assert IntStrings([2, 4]) == ["2", "4"];
    assert FormatInts([1, 3, 5]) == "1 3 5";
    assert FormatInts([2, 4]) == "2 4";
  }

  lemma ExampleText()
    ensures LinesText(["header", "header2", "1 3 5", "2 4"]) == "header\nheader2\n1 3 5\n2 4\n"
  {
    var lines := ["header", "header2", "1 3 5", "2 4"];
    assert LinesText(lines[3..]) == "2 4\n";
    assert LinesText(lines[2..]) == "1 3 5\n2 4\n";
    assert LinesText(lines[1..]) == "header2\n1 3 5\n2 4\n";
  }

  /** The worked example: two header lines, then `1 3 5` and `2 4`, for two tasks. */
  lemma ParseSelectionsExample()
    ensures ParseSelections("header\nheader2\n1 3 5\n2 4\n", 2, 2) == Some([[0, 2, 4], [1, 3]])
  {
    var headers := ["header", "header2"];
    ExampleSolverLines();
    ExampleText();
    assert headers + SolverLines([[0, 2, 4], [1, 3]]) == ["header", "header2", "1 3 5", "2 4"];
    ParseSelectionsRoundTrip(headers, [[0, 2, 4], [1, 3]]);
  }

  /** The single-task call is the no-correlation call with the correlation weight replaced by 0. */
  lemma SfanArgvIsNoCorrWithoutMu(numTasks: int, network: string, weights: seq<string>, params: string)
    requires |Words(params)| >= 2 && Words(params)[|Words(params)| - 2] == "-m"
    ensures var p := Words(params);
      var single := Join(" ", p[..|p| - 2]);
      var multi := NoCorrArgv(numTasks, network, weights, params);
      SfanArgv(numTasks, network, weights, single) == multi[..|multi| - 1] + ["0"]
  {
    var p := Words(params);
    var front := p[..|p| - 2];
    WordsOfJoin(front);
    var head := SolverHead(numTasks, network) + weights;
    LastTwo(p);
    ReplaceLast(head, front, "-m", p[|p| - 1], "0");
  }

  lemma LastTwo<T>(s: seq<T>)
    requires |s| >= 2
    ensures s == s[..|s| - 2] + [s[|s| - 2], s[|s| - 1]]
  {
  }

  lemma ReplaceLast<T>(head: seq<T>, front: seq<T>, m: T, x: T, y: T)
    ensures var s := head + (front + [m, x]); s[..|s| - 1] + [y] == head + front + [m, y]
  {
    var s := head + (front + [m, x]);
    assert s[..|s| - 1] == head + front + [m];
  }
}

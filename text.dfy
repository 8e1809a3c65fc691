/**
  The few Python 2 string built-ins the harness relies on to talk to files and to the
  solver process: `str.split()` (on whitespace), `str.split(sep)`, `sep.join(parts)`,
  iteration over the lines of a file, `readline()`, `rstrip()`, `str(int)` and `int(str)`.
  Every reader comes with the round-trip lemma that the harness's writers rely on.
*/
module Text {
  import opened Wrappers

  /** The characters Python 2's `str.split()` and `str.rstrip()` treat as whitespace. */
  predicate IsSpace(c: char) {
    c == ' ' || c == '\t' || c == '\n' || c == '\r' || c == '\U{0B}' || c == '\U{0C}'
  }

  predicate NoSpace(s: string) {
    forall i :: 0 <= i < |s| ==> !IsSpace(s[i])
  }

  /** A token as `str.split()` produces it, and as the harness's writers must emit it. */
  predicate IsToken(s: string) {
    s != [] && NoSpace(s)
  }

  /** Length of the leading run of non-whitespace characters of `s`. */
  function TokenLength(s: string): (k: nat)
    ensures k <= |s|
    ensures forall i :: 0 <= i < k ==> !IsSpace(s[i])
    ensures k < |s| ==> IsSpace(s[k])
  {
    if s == [] || IsSpace(s[0]) then 0 else 1 + TokenLength(s[1..])
  }

  /** `s.split()`: the maximal runs of non-whitespace characters, in order. */
  function Words(s: string): (ws: seq<string>)
    ensures forall i :: 0 <= i < |ws| ==> IsToken(ws[i])
    decreases |s|
  {
    if s == [] then []
    else if IsSpace(s[0]) then Words(s[1..])
    else
      var k := TokenLength(s);
      [s[..k]] + Words(s[k..])
  }

  /** `sep.join(parts)`. */
  function Join(sep: string, parts: seq<string>): string {
    if parts == [] then ""
    else if |parts| == 1 then parts[0]
    else parts[0] + sep + Join(sep, parts[1..])
  }

  /** Splitting a space-joined list of tokens gives the tokens back. */
  lemma {:induction false} WordsOfJoin(parts: seq<string>)
    requires forall i :: 0 <= i < |parts| ==> IsToken(parts[i])
    ensures Words(Join(" ", parts)) == parts
  {
    if parts == [] {
    } else if |parts| == 1 {
      var p := parts[0];
      assert TokenLength(p) == |p|;
      assert p[..|p|] == p && p[|p|..] == [];
    } else {
      var p, rest := parts[0], Join(" ", parts[1..]);
      var s := p + " " + rest;
      assert s[|p|] == ' ';
      assert TokenLength(s) == |p|;
      assert s[..|p|] == p;
      assert s[|p|..] == " " + rest;
      assert (" " + rest)[1..] == rest;
      WordsOfJoin(parts[1..]);
    }
  }

  /** Tokens are whitespace-free, so a joined list of them is whitespace-free but for the separators. */
  lemma {:induction false} JoinNoNewline(parts: seq<string>)
    requires forall i :: 0 <= i < |parts| ==> IsToken(parts[i])
    ensures '\n' !in Join(" ", parts)
  {
    if |parts| > 1 {
      JoinNoNewline(parts[1..]);
      assert '\n' !in parts[0];
    } else if |parts| == 1 {
      assert '\n' !in parts[0];
    }
  }

  /** `s.split(c)` for a one-character separator `c`: never an empty list. */
  function Split(s: string, c: char): (r: seq<string>)
    ensures |r| >= 1
    ensures forall i :: 0 <= i < |r| ==> c !in r[i]
  {
    if s == [] then [""]
    else
      var rest := Split(s[1..], c);
      if s[0] == c then [""] + rest else [[s[0]] + rest[0]] + rest[1..]
  }

  /** Splitting after a separator-free prefix and one separator peels that prefix off. */
  lemma {:induction false} SplitPrefix(l: string, c: char, t: string)
    requires c !in l
    ensures Split(l + [c] + t, c) == [l] + Split(t, c)
  {
    if l == [] {
      assert ([c] + t)[1..] == t;
    } else {
      assert (l + [c] + t)[1..] == l[1..] + [c] + t;
      SplitPrefix(l[1..], c, t);
      assert [l[0]] + l[1..] == l;
    }
  }

  /** The text of a file written one line at a time, each line followed by a newline. */
  function LinesText(lines: seq<string>): string {
    if lines == [] then "" else lines[0] + "\n" + LinesText(lines[1..])
  }

  /** Writing one more line appends it and its newline to the text. */
  lemma {:induction false} LinesTextSnoc(lines: seq<string>, l: string)
    ensures LinesText(lines + [l]) == LinesText(lines) + l + "\n"
  {
    if lines != [] {
      assert (lines + [l])[1..] == lines[1..] + [l];
      LinesTextSnoc(lines[1..], l);
    }
  }

  /** The lines a Python loop `for line in f` (or `f.readlines()`) sees, without their newline. */
  function FileLines(text: string): (ls: seq<string>)
    ensures forall i :: 0 <= i < |ls| ==> '\n' !in ls[i]
  {
    var parts := Split(text, '\n');
    if parts[|parts| - 1] == "" then parts[..|parts| - 1] else parts
  }

  /** The `t`-th call of `readline()` on a fresh file, newline dropped; `""` once the file is exhausted. */
  function ReadLineAt(text: string, t: nat): string {
    var ls := FileLines(text);
    if t < |ls| then ls[t] else ""
  }

  lemma {:induction false} SplitLinesText(lines: seq<string>, tail: string)
    requires forall i :: 0 <= i < |lines| ==> '\n' !in lines[i]
    ensures Split(LinesText(lines) + tail, '\n') == lines + Split(tail, '\n')
  {
    if lines == [] {
      assert LinesText(lines) + tail == tail;
    } else {
      calc {
        Split(LinesText(lines) + tail, '\n');
        { assert LinesText(lines) + tail == lines[0] + "\n" + (LinesText(lines[1..]) + tail); }
        Split(lines[0] + "\n" + (LinesText(lines[1..]) + tail), '\n');
        { SplitPrefix(lines[0], '\n', LinesText(lines[1..]) + tail); }
        [lines[0]] + Split(LinesText(lines[1..]) + tail, '\n');
        { SplitLinesText(lines[1..], tail); }
        [lines[0]] + (lines[1..] + Split(tail, '\n'));
        { assert [lines[0]] + lines[1..] == lines; }
        lines + Split(tail, '\n');
      }
    }
  }

  /** A file written line by line splits on newlines into its lines and a final empty piece. */
  lemma SplitOfLinesText(lines: seq<string>)
    requires forall i :: 0 <= i < |lines| ==> '\n' !in lines[i]
    ensures Split(LinesText(lines), '\n') == lines + [""]
  {
    SplitLinesText(lines, "");
    assert LinesText(lines) + "" == LinesText(lines);
  }

  /** Reading back a file written line by line gives the lines back. */
  lemma FileLinesOfLinesText(lines: seq<string>)
    requires forall i :: 0 <= i < |lines| ==> '\n' !in lines[i]
    ensures FileLines(LinesText(lines)) == lines
  {
    SplitOfLinesText(lines);
    var parts := lines + [""];
    assert parts[..|parts| - 1] == lines;
  }

  /** `s.rstrip()`: drop trailing whitespace. */
  function RStrip(s: string): (r: string)
    ensures |r| <= |s| && r == s[..|r|]
    ensures r == [] || !IsSpace(r[|r| - 1])
    ensures forall i :: |r| <= i < |s| ==> IsSpace(s[i])
  {
    if s != [] && IsSpace(s[|s| - 1]) then RStrip(s[..|s| - 1]) else s
  }

  /** `rstrip` is the identity exactly on strings without trailing whitespace. */
  lemma RStripIdentity(s: string)
    ensures RStrip(s) == s <==> (s == [] || !IsSpace(s[|s| - 1]))
  {
  }

  predicate IsDigit(c: char) {
    '0' <= c <= '9'
  }

  predicate AllDigits(s: string) {
    s != [] && forall i :: 0 <= i < |s| ==> IsDigit(s[i])
  }

  function DigitChar(d: nat): (c: char)
    requires d < 10
    ensures IsDigit(c) && c as int - '0' as int == d
  {
    ('0' as int + d) as char
  }

  /** The value of a non-empty string of decimal digits (leading zeros allowed). */
  function DigitsValue(s: string): nat
    requires forall i :: 0 <= i < |s| ==> IsDigit(s[i])
  {
    if s == [] then 0
    else
      assert IsDigit(s[|s| - 1]);
      10 * DigitsValue(s[..|s| - 1]) + (s[|s| - 1] as int - '0' as int)
  }

  /** Decimal digits of `n`, most significant first, no leading zero. */
  function NatToString(n: nat): (s: string)
    ensures AllDigits(s)
  {
    if n < 10 then [DigitChar(n)] else NatToString(n / 10) + [DigitChar(n % 10)]
  }

  /** `str(x)` for a Python integer. */
  function IntToString(x: int): (s: string)
    ensures IsToken(s)
  {
    if x < 0 then "-" + NatToString(-x) else NatToString(x)
  }

  /** `int(s)` for base 10: an optional sign and one or more digits; anything else raises ValueError (`None`). */
  function ParseInt(s: string): Option<int> {
    if s != [] && (s[0] == '-' || s[0] == '+') then
      if AllDigits(s[1..]) then
        var magnitude: int := DigitsValue(s[1..]);
        Some(if s[0] == '-' then -magnitude else magnitude)
      else None
    else if AllDigits(s) then Some(DigitsValue(s))
    else None
  }

  lemma {:induction false} DigitsOfNat(n: nat)
    ensures DigitsValue(NatToString(n)) == n
  {
    if n >= 10 {
      var s := NatToString(n);
      assert s[..|s| - 1] == NatToString(n / 10);
      DigitsOfNat(n / 10);
    }
  }

  /** `int(str(x)) == x` for every integer. */
  lemma ParseIntOfString(x: int)
    ensures ParseInt(IntToString(x)) == Some(x)
  {
    var s := IntToString(x);
    if x < 0 {
      assert s[1..] == NatToString(-x);
      DigitsOfNat(-x);
    } else {
      DigitsOfNat(x);
    }
  }

  /** `map(int, tokens)`: `None` as soon as one token is not an integer. */
  function ParseInts(tokens: seq<string>): (r: Option<seq<int>>)
    ensures r.Some? ==> |r.value| == |tokens|
    ensures r.Some? <==> forall i :: 0 <= i < |tokens| ==> ParseInt(tokens[i]).Some?
    ensures r.Some? ==> forall i :: 0 <= i < |tokens| ==> ParseInt(tokens[i]) == Some(r.value[i])
  {
    if tokens == [] then Some([])
    else
      match (ParseInt(tokens[0]), ParseInts(tokens[1..]))
      case (Some(x), Some(xs)) => Some([x] + xs)
      case _ => None
  }

  /** `[str(x) for x in xs]`. */
  function IntStrings(xs: seq<int>): (ts: seq<string>)
    ensures |ts| == |xs|
    ensures forall i :: 0 <= i < |xs| ==> ts[i] == IntToString(xs[i])
  {
    seq(|xs|, i requires 0 <= i < |xs| => IntToString(xs[i]))
  }

  /** `' '.join(str(x) for x in xs)`: the line format of selection files. */
  function FormatInts(xs: seq<int>): string {
    Join(" ", IntStrings(xs))
  }

  /** A line written by `FormatInts` splits and parses back to the same integers. */
  lemma FormatIntsRoundTrip(xs: seq<int>)
    ensures Words(FormatInts(xs)) == IntStrings(xs)
    ensures ParseInts(Words(FormatInts(xs))) == Some(xs)
    ensures '\n' !in FormatInts(xs)
  {
    var ts := IntStrings(xs);
    WordsOfJoin(ts);
    JoinNoNewline(ts);
    forall i | 0 <= i < |ts| ensures ParseInt(ts[i]) == Some(xs[i]) {
      ParseIntOfString(xs[i]);
    }
    var r := ParseInts(ts);
    assert r.Some?;
    assert r.value == xs;
  }
}

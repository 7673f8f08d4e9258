/** Tab expansion of the syntax highlighter: the first tab of a line is replaced until none is left,
    which comes to the same as one pass with a column counter. */
module SmartTabs {
  import opened Collections

  const TAB_SIZE := 4

  // ---------------------------------------------------------------- one pass

  function Spaces(n: nat): (s: string)
    ensures |s| == n && forall i :: 0 <= i < n ==> s[i] == ' '
  {
    seq(n, _ => ' ')
  }

  /** The spaces from a column to the next tab stop, which is never the column itself. */
  function Padding(column: nat): nat {
    TAB_SIZE - column % TAB_SIZE
  }

  /** One character at a column: a tab stretches to the next tab stop. */
  function Step(c: char, column: nat): string {
    if c == '\t' then Spaces(Padding(column)) else [c]
  }

  /** What `line` looks like if it begins at `column`. */
  function Expand(line: string, column: nat): string {
    if line == "" then ""
    else Step(line[0], column) + Expand(line[1..], column + |Step(line[0], column)|)
  }

  function NoSpaces(line: string): string {
    if line == "" then ""
    else (if line[0] == ' ' || line[0] == '\t' then "" else [line[0]]) + NoSpaces(line[1..])
  }

  lemma ExpandUnfolds(line: string, column: nat)
    requires line != ""
    ensures Expand(line, column) == Step(line[0], column) + Expand(line[1..], column + |Step(line[0], column)|)
  {
  }

  /** Expansion goes on from wherever the first part ends. */
  lemma {:induction false} ExpandConcat(a: string, b: string, column: nat)
    ensures Expand(a + b, column) == Expand(a, column) + Expand(b, column + |Expand(a, column)|)
  {
    if a == "" {
      assert a + b == b;
      assert "" + Expand(b, column) == Expand(b, column);
    } else {
      hide *;
      var step := Step(a[0], column);
      ConcatTail(a, b);
      ExpandUnfolds(a, column);
      ExpandUnfolds(a + b, column);
      ExpandConcat(a[1..], b, column + |step|);
      Associative(step, Expand(a[1..], column + |step|), Expand(b, column + |Expand(a, column)|));
    }
  }

  lemma ConcatTail(a: string, b: string)
    requires a != ""
    ensures (a + b)[0] == a[0] && (a + b)[1..] == a[1..] + b
  {
  }

  /** What stands behind a tab is at the next tab stop: the least multiple of 4 beyond what is in
      front of the tab. */
  lemma {:induction false} TabsStopAtMultiples(a: string)
    ensures var before, after := |Expand(a, 0)|, |Expand(a + "\t", 0)|;
      after % 4 == 0 && before < after <= before + 4
  {
    ExpandConcat(a, "\t", 0);
    var before := |Expand(a, 0)|;
    assert "\t"[1..] == "" && Expand("", before + Padding(before)) == "";
    assert Expand("\t", before) == Spaces(Padding(before)) + "";
  }

  lemma {:induction false} SpacesVanish(n: nat, rest: string)
    ensures NoSpaces(Spaces(n) + rest) == NoSpaces(rest)
    decreases n
  {
    if n == 0 {
      assert Spaces(0) + rest == rest;
    } else {
      SpacesVanish(n - 1, rest);
      assert (Spaces(n) + rest)[1..] == Spaces(n - 1) + rest;
    }
  }

  /** Nothing but white space changes, and no tab is left. */
  lemma {:induction false} OnlyWhiteSpaceChanges(line: string, column: nat)
    ensures NoSpaces(Expand(line, column)) == NoSpaces(line)
    ensures '\t' !in Expand(line, column)
    ensures '\n' in Expand(line, column) <==> '\n' in line
  {
    if line != "" {
      assert line == [line[0]] + line[1..];
      if line[0] == '\t' {
        OnlyWhiteSpaceChanges(line[1..], column + Padding(column));
        SpacesVanish(Padding(column), Expand(line[1..], column + Padding(column)));
      } else {
        OnlyWhiteSpaceChanges(line[1..], column + 1);
        assert Expand(line, column)[1..] == Expand(line[1..], column + 1);
      }
    }
  }

  lemma {:induction false} NothingToExpand(line: string, column: nat)
    requires '\t' !in line
    ensures Expand(line, column) == line
  {
    if line != "" {
      NothingToExpand(line[1..], column + 1);
    }
  }

  // ---------------------------------------------------------------- one tab at a time

  /** `h.indexOf("\t")` of JavaScript. */
  function IndexOfTab(h: string): (l: int)
    ensures -1 <= l < |h|
    ensures l == -1 ==> '\t' !in h
    ensures l >= 0 ==> h[l] == '\t' && '\t' !in h[..l]
  {
    if h == "" then -1
    else if h[0] == '\t' then 0
    else
      var l := IndexOfTab(h[1..]);
      assert l >= 0 ==> h[..l + 1] == [h[0]] + h[1..][..l];
      if l == -1 then -1 else l + 1
  }

  function Tabs(h: string): nat {
    if h == "" then 0 else (if h[0] == '\t' then 1 else 0) + Tabs(h[1..])
  }

  lemma {:induction false} TabsConcat(a: string, b: string)
    ensures Tabs(a + b) == Tabs(a) + Tabs(b)
  {
    if a == "" {
      assert a + b == b;
    } else {
      TabsConcat(a[1..], b);
      assert (a + b)[1..] == a[1..] + b;
    }
  }

  lemma {:induction false} NoTabs(a: string)
    requires '\t' !in a
    ensures Tabs(a) == 0
  {
    if a != "" {
      NoTabs(a[1..]);
    }
  }

  /** Replacing the first tab by the spaces up to the next tab stop changes nothing in the result,
      and there is one tab less. */
  lemma ReplaceFirst(h: string, l: nat)
    requires l < |h| && h[l] == '\t' && '\t' !in h[..l]
    ensures var next := h[..l] + Spaces(Padding(l)) + h[l + 1..];
      Expand(next, 0) == Expand(h, 0) && Tabs(next) == Tabs(h) - 1
  {
    var pre, pad, rest := h[..l], Spaces(Padding(l)), h[l + 1..];
    NoTabs(pad);
    ExpandTab(rest, l);
    hide *;
    assert h == pre + (['\t'] + rest) by { assert h == h[..l] + [h[l]] + h[l + 1..]; Associative(pre, ['\t'], rest); }
    Associative(pre, pad, rest);
    NothingToExpand(pre, 0);
    ExpandConcat(pre, ['\t'] + rest, 0);
    ExpandConcat(pre, pad + rest, 0);
    OneTabLess(pre, pad, rest);
  }

  /** A tab at a column is as good as the spaces to the next tab stop. */
  lemma ExpandTab(rest: string, column: nat)
    ensures Expand(['\t'] + rest, column) == Expand(Spaces(Padding(column)) + rest, column)
  {
    var pad := Spaces(Padding(column));
    ConcatTail(['\t'], rest);
    assert ['\t'][1..] + rest == rest;
    ExpandUnfolds(['\t'] + rest, column);
    NothingToExpand(pad, column);
    ExpandConcat(pad, rest, column);
  }

  lemma OneTabLess(pre: string, pad: string, rest: string)
    requires Tabs(pad) == 0
    ensures Tabs(pre + (pad + rest)) == Tabs(pre + (['\t'] + rest)) - 1
  {
    TabsConcat(pre, ['\t'] + rest);
    TabsConcat(pre, pad + rest);
    TabsConcat(pad, rest);
    assert (['\t'] + rest)[1..] == rest;
  }

  /** `c(h, e, l)`: the character at `e` gives way to `l` spaces. */
  method InsertSpaces(h: string, e: nat, l: nat) returns (r: string)
    requires e < |h|
    ensures r == h[..e] + Spaces(l) + h[e + 1..]
  {
    var spaces := "";
    for i := 0 to l
      invariant spaces == Spaces(i)
    {
      spaces := spaces + " ";
    }
    r := h[..e] + spaces + h[e + 1..];
  }

  /** `d(h, e)` with a tab size of 4: the loop ends, and it has made the one pass. */
  method ExpandLine(line: string) returns (h: string)
    ensures h == Expand(line, 0)
  {
    h := line;
    if IndexOfTab(h) == -1 {
      NothingToExpand(h, 0);
      return;
    }
    var l := IndexOfTab(h);
    while l != -1
      invariant l == IndexOfTab(h) && Expand(h, 0) == Expand(line, 0)
      decreases Tabs(h)
    {
      ReplaceFirst(h, l);
      h := InsertSpaces(h, l, TAB_SIZE - l % TAB_SIZE);
      l := IndexOfTab(h);
    }
    NothingToExpand(h, 0);
  }

  // ---------------------------------------------------------------- all lines

  /** `code.split("\n")` of JavaScript: at least one line. */
  function Split(code: string): (lines: seq<string>)
    ensures |lines| > 0 && forall i :: 0 <= i < |lines| ==> '\n' !in lines[i]
  {
    if code == "" then [""]
    else
      var rest := Split(code[1..]);
      if code[0] == '\n' then [""] + rest else [[code[0]] + rest[0]] + rest[1..]
  }

  function Expanded(lines: seq<string>): (r: seq<string>)
    ensures |r| == |lines| && forall i :: 0 <= i < |lines| ==> r[i] == Expand(lines[i], 0)
  {
    seq(|lines|, i requires 0 <= i < |lines| => Expand(lines[i], 0))
  }

  /** Every line with a line end behind it. */
  function Lines(lines: seq<string>): string {
    if lines == [] then "" else lines[0] + "\n" + Lines(lines[1..])
  }

  lemma {:induction false} SplitLine(line: string, rest: string)
    requires '\n' !in line
    ensures Split(line + "\n" + rest) == [line] + Split(rest)
  {
    if line == "" {
      assert (line + "\n" + rest)[1..] == rest;
    } else {
      SplitLine(line[1..], rest);
      assert (line + "\n" + rest)[1..] == line[1..] + "\n" + rest;
      assert line == [line[0]] + line[1..];
      assert ([line[1..]] + Split(rest))[1..] == Split(rest);
    }
  }

  lemma {:induction false} SplitLines(lines: seq<string>)
    requires forall i :: 0 <= i < |lines| ==> '\n' !in lines[i]
    ensures Split(Lines(lines)) == lines + [""]
  {
    if lines != [] {
      SplitLines(lines[1..]);
      SplitLine(lines[0], Lines(lines[1..]));
      assert lines == [lines[0]] + lines[1..];
    }
  }

  /** The pieces joined by line ends, with none behind the last. */
  function Joined(pieces: seq<string>): string {
    if |pieces| == 0 then "" else if |pieces| == 1 then pieces[0] else pieces[0] + "\n" + Joined(pieces[1..])
  }

  /** Splitting loses nothing: joining the pieces with line ends gives the code back. */
  lemma {:induction false} JoinedSplit(code: string)
    ensures Joined(Split(code)) == code
  {
    if code != "" {
      var rest := Split(code[1..]);
      JoinedSplit(code[1..]);
      assert code == [code[0]] + code[1..];
      if code[0] == '\n' {
        assert ([""] + rest)[1..] == rest;
        assert "" + "\n" + Joined(rest) == [code[0]] + code[1..];
      } else {
        var longer := [[code[0]] + rest[0]] + rest[1..];
        assert longer[1..] == rest[1..];
        if |rest| > 1 {
          assert ([code[0]] + rest[0]) + "\n" + Joined(rest[1..]) == [code[0]] + (rest[0] + "\n" + Joined(rest[1..]));
        }
      }
    }
  }

  lemma {:induction false} LinesAppend(lines: seq<string>, line: string)
    ensures Lines(lines + [line]) == Lines(lines) + line + "\n"
  {
    if lines == [] {
      assert (lines + [line])[1..] == [];
    } else {
      LinesAppend(lines[1..], line);
      assert (lines + [line])[1..] == lines[1..] + [line];
    }
  }

  /** The result has the expanded lines of the code, in order, and one empty line more: a line end is
      put behind the last line too. */
  method ProcessSmartTabs(code: string) returns (f: string)
    ensures Split(f) == Expanded(Split(code)) + [""]
    ensures f == Lines(Expanded(Split(code)))
  {
    var lines := Split(code);
    f := "";
    for q := 0 to |lines|
      invariant f == Lines(Expanded(lines)[..q])
    {
      var line := ExpandLine(lines[q]);
      LinesAppend(Expanded(lines)[..q], line);
      assert Expanded(lines)[..q + 1] == Expanded(lines)[..q] + [line];
      f := f + line + "\n";
    }
    assert Expanded(lines)[..|lines|] == Expanded(lines);
    forall i | 0 <= i < |lines| ensures '\n' !in Expanded(lines)[i] {
      OnlyWhiteSpaceChanges(lines[i], 0);
    }
    SplitLines(Expanded(lines));
  }
}

/** What the rewriting of comment runs leaves behind. */
module ProtoRewrite {
  import opened ProtoComments
  import Splices

  // ---- the lines of a block are not line comments ----

  lemma {:induction false} StripKeeps(s: Line, n: nat)
    requires n < |s| && !IsSpace(s[n])
    ensures |RStrip(s)| > n && RStrip(s)[..n + 1] == s[..n + 1]
    decreases |s|
  {
    if IsSpace(s[|s| - 1]) {
      StripKeeps(s[..|s| - 1], n);
    }
  }

  /** Whitespace followed by `/` and `*`, or by `*`, starts no line comment. */
  lemma NoComment(t: Line, n: nat)
    requires n + 1 < |t| && t[n + 1] == '*' && (t[n] == '/' || t[n] == ' ')
    requires forall i :: 0 <= i < n ==> IsSpace(t[i])
    ensures !IsComment(t) && !IsSpdx(t)
  {
    IndentIs(t, if t[n] == '/' then n else n + 1);
  }

  lemma {:induction false} IndentIs(t: Line, n: nat)
    requires n < |t| && !IsSpace(t[n]) && forall i :: 0 <= i < n ==> IsSpace(t[i])
    ensures Indent(t) == n
  {
    if n > 0 {
      assert IsSpace(t[0]);
      forall i | 0 <= i < n - 1 ensures IsSpace(t[1..][i]) {
        assert IsSpace(t[i + 1]);
      }
      IndentIs(t[1..], n - 1);
    }
  }

  lemma StrippedIsNoComment(indent: Line, c: char, content: Line)
    requires Blank(indent) && (c == '/' || c == ' ')
    ensures !IsComment(RStrip(indent + [c, '*'] + content)) && !IsSpdx(RStrip(indent + [c, '*'] + content))
  {
    var n, s := |indent|, indent + [c, '*'] + content;
    StripKeeps(s, n + 1);
    var t := RStrip(s);
    forall i | 0 <= i <= n + 1 ensures t[i] == s[i] {
      assert t[..n + 2][i] == s[..n + 2][i];
    }
    NoComment(t, n);
  }

  lemma BlockLinesAreNoComments(indent: Line, contents: seq<Line>, k: nat)
    requires Blank(indent) && contents != [] && k <= |contents|
    ensures !IsComment(Block(indent, contents)[k]) && !IsSpdx(Block(indent, contents)[k])
  {
    if k == 0 {
      StrippedIsNoComment(indent, '/', contents[0]);
      assert "/*" == ['/', '*'];
    } else if k < |contents| {
      StrippedIsNoComment(indent, ' ', contents[k]);
      assert " *" == [' ', '*'];
    } else {
      NoComment(indent + " */", |indent|);
    }
  }

  // ---- no violation is left ----

  lemma CleanJoin(xs: seq<Line>, ys: seq<Line>)
    requires Clean(xs) && Clean(ys)
    requires xs != [] && ys != [] ==> !Adjacent(xs[|xs| - 1], ys[0])
    ensures Clean(xs + ys)
  {
    var zs := xs + ys;
    forall i | 0 <= i < |zs| - 1 ensures !Adjacent(zs[i], zs[i + 1]) {
      if i < |xs| - 1 {
        assert !Adjacent(xs[i], xs[i + 1]);
      } else if i >= |xs| {
        assert !Adjacent(ys[i - |xs|], ys[i - |xs| + 1]);
      }
    }
  }

  lemma BlockIsClean(indent: Line, contents: seq<Line>)
    requires Blank(indent) && contents != []
    ensures Clean(Block(indent, contents))
  {
    forall k | 0 <= k < |contents| + 1 ensures !IsComment(Block(indent, contents)[k]) {
      BlockLinesAreNoComments(indent, contents, k);
    }
  }

  /** The first rewritten line is the line itself or no comment at all. */
  lemma FirstLine(lines: seq<Line>, i: nat)
    requires i < |lines|
    ensures Rewritten(lines, i) != []
    ensures Rewritten(lines, i)[0] == lines[i] || (!IsComment(Rewritten(lines, i)[0]) && !IsSpdx(Rewritten(lines, i)[0]))
  {
    if IsComment(lines[i]) {
      var j := RunEnd(lines, i, IndentOf(lines[i]));
      assert Extends(lines[i], IndentOf(lines[i]));
      if j - i > 1 {
        IndentIsBlank(lines[i]);
        BlockLinesAreNoComments(IndentOf(lines[i]), Contents(lines, i, j), 0);
      }
    }
  }

  /** The run or single line at `i`, as it appears in the result. */
  function Piece(lines: seq<Line>, i: nat): (seq<Line>, nat)
    requires i < |lines|
  {
    var indent := IndentOf(lines[i]);
    var j := if IsComment(lines[i]) then RunEnd(lines, i, indent) else i + 1;
    if j - i > 1 then (Block(indent, Contents(lines, i, j)), j) else ([lines[i]], i + 1)
  }

  lemma PieceFacts(lines: seq<Line>, i: nat)
    requires i < |lines|
    ensures var (piece, j) := Piece(lines, i);
      && i < j <= |lines| && piece != [] && Clean(piece)
      && Rewritten(lines, i) == piece + Rewritten(lines, j)
      && (j < |lines| ==> !Adjacent(piece[|piece| - 1], lines[j]))
  {
    var indent := IndentOf(lines[i]);
    if IsComment(lines[i]) {
      var j := RunEnd(lines, i, indent);
      assert Extends(lines[i], indent);
      if j - i > 1 {
        IndentIsBlank(lines[i]);
        BlockIsClean(indent, Contents(lines, i, j));
        BlockLinesAreNoComments(indent, Contents(lines, i, j), j - i);
      } else {
        assert lines[i..j] == [lines[i]];
      }
    }
  }

  lemma {:induction false} RewrittenIsClean(lines: seq<Line>, i: nat)
    requires i <= |lines|
    ensures Clean(Rewritten(lines, i))
    decreases |lines| - i
  {
    if i < |lines| {
      PieceFacts(lines, i);
      var (piece, j) := Piece(lines, i);
      RewrittenIsClean(lines, j);
      if j < |lines| {
        FirstLine(lines, j);
      }
      CleanJoin(piece, Rewritten(lines, j));
    }
  }

  /** The license header is untouched, and it is still the header. */
  lemma HeaderKept(lines: seq<Line>)
    ensures SpdxPrefix(RewrittenLines(lines)) == SpdxPrefix(lines)
    ensures RewrittenLines(lines)[..SpdxPrefix(lines)] == lines[..SpdxPrefix(lines)]
  {
    var p, out := SpdxPrefix(lines), RewrittenLines(lines);
    assert forall i :: 0 <= i < p ==> out[i] == lines[i];
    if p < |lines| {
      FirstLine(lines, p);
      assert out[p] == Rewritten(lines, p)[0];
    }
  }

  /** Rewriting leaves no violation, so rewriting again changes nothing. */
  lemma RewriteIsIdempotent(lines: seq<Line>)
    ensures Violations(RewrittenLines(lines), SpdxPrefix(RewrittenLines(lines))) == []
    ensures RewrittenLines(RewrittenLines(lines)) == RewrittenLines(lines)
  {
    var p, out := SpdxPrefix(lines), RewrittenLines(lines);
    HeaderKept(lines);
    RewrittenIsClean(lines, p);
    assert out[p..] == Rewritten(lines, p);
    ViolationsIffAdjacent(out, p);
    RewrittenAtFirst(out, p);
    assert out[..p] + out[p..] == out;
  }

  // ---- what else changes ----

  function RunStop(v: Run): nat {
    v.start + |v.contents|
  }

  /** A run as a cut: its block takes the place of its lines. */
  function CutOf(v: Run): Splices.Cut<Line> {
    Splices.Cut(v.start, RunStop(v), if v.contents == [] then [] else Block(v.indent, v.contents))
  }

  function CutsOf(vs: seq<Run>): (cuts: seq<Splices.Cut<Line>>)
    ensures |cuts| == |vs| && forall n :: 0 <= n < |vs| ==> cuts[n] == CutOf(vs[n])
  {
    seq(|vs|, n requires 0 <= n < |vs| => CutOf(vs[n]))
  }

  /** Rewriting, as pieces spliced in. */
  function PlanOf(lines: seq<Line>): Splices.Plan<Line> {
    Splices.Plan(lines, (i: nat) => if i <= |lines| then CutsOf(Violations(lines, i)) else [],
                 (i: nat) => if i <= |lines| then Rewritten(lines, i) else [])
  }

  lemma PlanHere(lines: seq<Line>, i: nat)
    requires i <= |lines|
    ensures PlanOf(lines).cuts(i) == CutsOf(Violations(lines, i)) && PlanOf(lines).out(i) == Rewritten(lines, i)
  {
  }

  lemma CutsSplit(vs: seq<Run>, rest: seq<Run>)
    requires vs != [] && vs[1..] == rest
    ensures CutsOf(vs) == [CutOf(vs[0])] + CutsOf(rest)
  {
    var b := [CutOf(vs[0])] + CutsOf(rest);
    forall n | 0 <= n < |vs| ensures CutsOf(vs)[n] == b[n] {
      assert n > 0 ==> vs[n] == rest[n - 1];
    }
  }

  lemma FirstRunSplits(lines: seq<Line>, i: nat, v: Run)
    requires i <= |lines| && Violations(lines, i) != [] && v == Violations(lines, i)[0]
    requires i <= v.start && |v.contents| >= 2 && RunStop(v) <= |lines|
    requires Violations(lines, i)[1..] == Violations(lines, RunStop(v))
    requires Rewritten(lines, i) == lines[i..v.start] + (Block(v.indent, v.contents) + Rewritten(lines, RunStop(v)))
    ensures Splices.SplitsAt(PlanOf(lines), i)
  {
    PlanHere(lines, i);
    PlanHere(lines, RunStop(v));
    CutsSplit(Violations(lines, i), Violations(lines, RunStop(v)));
    Splices.CutFirst(PlanOf(lines), i, CutOf(v), CutsOf(Violations(lines, RunStop(v))), Rewritten(lines, RunStop(v)));
  }

  lemma NoRunSplits(lines: seq<Line>, i: nat)
    requires i <= |lines| && Violations(lines, i) == [] && Rewritten(lines, i) == lines[i..]
    ensures Splices.SplitsAt(PlanOf(lines), i)
  {
    PlanHere(lines, i);
  }

  lemma PlanSplitsAt(lines: seq<Line>, i: nat)
    requires i <= |lines|
    ensures Splices.SplitsAt(PlanOf(lines), i)
  {
    RewrittenAtFirst(lines, i);
    if Violations(lines, i) == [] {
      NoRunSplits(lines, i);
    } else {
      FirstRunSplits(lines, i, Violations(lines, i)[0]);
    }
  }

  lemma PlanSplits(lines: seq<Line>)
    ensures Splices.Splits(PlanOf(lines))
  {
    forall i: nat | i <= |lines| ensures Splices.SplitsAt(PlanOf(lines), i) {
      PlanSplitsAt(lines, i);
    }
  }

  /** Each run gains exactly one line. */
  lemma OneLinePerRun(lines: seq<Line>, i: nat)
    requires i <= |lines|
    ensures |Rewritten(lines, i)| == |lines| - i + |Violations(lines, i)|
  {
    PlanSplits(lines);
    Splices.OutLength(PlanOf(lines), i);
  }

  /** Line `k` lies behind the first `n` runs and before the others. */
  ghost predicate Between(lines: seq<Line>, i: nat, n: nat, k: nat)
    requires i <= |lines|
  {
    Splices.Between(PlanOf(lines), i, n, k)
  }

  /** Line `k` lies in run number `n`. */
  ghost predicate Inside(lines: seq<Line>, i: nat, n: nat, k: nat)
    requires i <= |lines|
  {
    Splices.Inside(PlanOf(lines), i, n, k)
  }

  /** What that means for the runs found. */
  lemma PlaceMeaning(lines: seq<Line>, i: nat, n: nat, k: nat)
    requires i <= |lines|
    ensures var vs := Violations(lines, i);
      && (Inside(lines, i, n, k) <==> n < |vs| && vs[n].start <= k < RunStop(vs[n]))
      && (Between(lines, i, n, k) <==>
          n <= |vs| && (if n == 0 then i else RunStop(vs[n - 1])) <= k < |lines| && (n < |vs| ==> k < vs[n].start))
  {
  }

  /** A line outside every run is kept, moved down by one for each run above it. */
  lemma OutsideLineKept(lines: seq<Line>, i: nat, n: nat, k: nat)
    requires i <= |lines| && Between(lines, i, n, k)
    ensures k < |lines| && 0 <= k - i + n < |Rewritten(lines, i)| && Rewritten(lines, i)[k - i + n] == lines[k]
  {
    PlanSplits(lines);
    Splices.OutsideAt(PlanOf(lines), i, n, k);
  }

  /** Every line is in some run or between two of them. */
  lemma InsideOrBetween(lines: seq<Line>, i: nat, k: nat) returns (n: nat)
    requires i <= k < |lines|
    ensures Inside(lines, i, n, k) || Between(lines, i, n, k)
  {
    PlanSplits(lines);
    n := Splices.InsideOrBetween(PlanOf(lines), i, k);
  }

  /** The lines of a run are comments at its indent, with its contents. */
  ghost predicate RunIsThere(lines: seq<Line>, v: Run) {
    RunStop(v) <= |lines| && |v.contents| >= 2 && forall k :: v.start <= k < RunStop(v) ==>
      Extends(lines[k], v.indent) && v.contents[k - v.start] == ContentOf(lines[k])
  }

  lemma {:induction false} RunsAreThere(lines: seq<Line>, i: nat, n: nat)
    requires i <= |lines| && n < |Violations(lines, i)|
    ensures RunIsThere(lines, Violations(lines, i)[n])
    decreases |lines| - i
  {
    if !IsComment(lines[i]) {
      RunsAreThere(lines, i + 1, n);
    } else {
      var indent := IndentOf(lines[i]);
      var j := RunEnd(lines, i, indent);
      assert Extends(lines[i], indent);
      if j == i + 1 {
        RunsAreThere(lines, j, n);
      } else if n == 0 {
        assert Violations(lines, i)[0] == Run(i, indent, Contents(lines, i, j));
      } else {
        RunsAreThere(lines, j, n - 1);
      }
    }
  }

  /** What a line of a run turns into: the first opens the block, the others continue it. */
  function NewLine(s: Line, first: bool): Line
    requires IsComment(s)
  {
    RStrip(IndentOf(s) + (if first then "/*" else " *") + ContentOf(s))
  }

  lemma RunLineInBlock(lines: seq<Line>, v: Run, k: nat)
    requires RunIsThere(lines, v) && v.start <= k < RunStop(v)
    ensures IsComment(lines[k]) && Block(v.indent, v.contents)[k - v.start] == NewLine(lines[k], k == v.start)
  {
    assert Extends(lines[k], v.indent);
  }

  /** The block of run number `n` comes out where the run was. */
  lemma BlockOut(lines: seq<Line>, i: nat, n: nat, m: nat)
    requires i <= |lines| && n < |Violations(lines, i)|
    requires Violations(lines, i)[n].contents != [] && m <= |Violations(lines, i)[n].contents|
    ensures var v := Violations(lines, i)[n];
      var at := v.start + m - i + n;
      0 <= at < |Rewritten(lines, i)| && Rewritten(lines, i)[at] == Block(v.indent, v.contents)[m]
  {
    PlanSplits(lines);
    PlanHere(lines, i);
    Splices.PieceAt(PlanOf(lines), i, n, m);
  }

  /** Line `k` of run number `n` stays in its place, one further down for each run
      above, with its own indent and content behind the block's mark. */
  lemma RunLineRewritten(lines: seq<Line>, i: nat, n: nat, k: nat)
    requires i <= |lines| && Inside(lines, i, n, k)
    ensures n < |Violations(lines, i)| && k < |lines| && IsComment(lines[k]) && 0 <= k - i + n < |Rewritten(lines, i)|
    ensures Rewritten(lines, i)[k - i + n] == NewLine(lines[k], k == Violations(lines, i)[n].start)
  {
    PlaceMeaning(lines, i, n, k);
    RunsAreThere(lines, i, n);
    RunLineInBlock(lines, Violations(lines, i)[n], k);
    BlockOut(lines, i, n, k - Violations(lines, i)[n].start);
  }

  // ---- whole texts ----

  predicate OneLine(s: Line) {
    forall i :: 0 <= i < |s| ==> s[i] != '\n'
  }

  function Split(text: string): (lines: seq<Line>)
    ensures lines != [] && forall i :: 0 <= i < |lines| ==> OneLine(lines[i])
  {
    if text == "" then [""]
    else if text[0] == '\n' then [""] + Split(text[1..])
    else
      var rest := Split(text[1..]);
      [[text[0]] + rest[0]] + rest[1..]
  }

  function Join(lines: seq<Line>): string
    requires lines != []
  {
    if |lines| == 1 then lines[0] else lines[0] + "\n" + Join(lines[1..])
  }

  lemma {:induction false} SplitLine(line: Line)
    requires OneLine(line)
    ensures Split(line) == [line]
  {
    if line != "" {
      SplitLine(line[1..]);
      assert [line[0]] + line[1..] == line;
    }
  }

  lemma {:induction false} SplitAfterLine(line: Line, rest: string)
    requires OneLine(line)
    ensures Split(line + "\n" + rest) == [line] + Split(rest)
  {
    var text := line + "\n" + rest;
    if line == "" {
      assert text[1..] == rest;
    } else {
      assert text[1..] == line[1..] + "\n" + rest;
      SplitAfterLine(line[1..], rest);
      assert [line[0]] + line[1..] == line;
      assert ([line[1..]] + Split(rest))[1..] == Split(rest);
    }
  }

  lemma {:induction false} SplitJoin(lines: seq<Line>)
    requires lines != [] && forall i :: 0 <= i < |lines| ==> OneLine(lines[i])
    ensures Split(Join(lines)) == lines
  {
    if |lines| == 1 {
      SplitLine(lines[0]);
    } else {
      SplitJoin(lines[1..]);
      SplitAfterLine(lines[0], Join(lines[1..]));
    }
  }

  lemma BlockLineIsOneLine(indent: Line, contents: seq<Line>, k: nat)
    requires contents != [] && k <= |contents| && OneLine(indent)
    requires forall n :: 0 <= n < |contents| ==> OneLine(contents[n])
    ensures OneLine(Block(indent, contents)[k])
  {
    if k == 0 {
      assert OneLine(indent + "/*" + contents[0]);
    } else if k < |contents| {
      assert OneLine(indent + " *" + contents[k]);
    }
  }

  lemma PieceIsLines(lines: seq<Line>, i: nat, k: nat)
    requires i < |lines| && forall n :: 0 <= n < |lines| ==> OneLine(lines[n])
    requires k < |Piece(lines, i).0|
    ensures OneLine(Piece(lines, i).0[k])
  {
    var (piece, j) := Piece(lines, i);
    if j - i > 1 {
      var contents := Contents(lines, i, j);
      forall n | 0 <= n < |contents| ensures OneLine(contents[n]) {
        assert IsComment(lines[i + n]);
      }
      BlockLineIsOneLine(IndentOf(lines[i]), contents, k);
    }
  }

  lemma {:induction false} RewrittenIsLines(lines: seq<Line>, i: nat, k: nat)
    requires i <= |lines| && forall n :: 0 <= n < |lines| ==> OneLine(lines[n])
    requires k < |Rewritten(lines, i)|
    ensures OneLine(Rewritten(lines, i)[k])
    decreases |lines| - i
  {
    PieceFacts(lines, i);
    var (piece, j) := Piece(lines, i);
    if k < |piece| {
      PieceIsLines(lines, i, k);
    } else {
      RewrittenIsLines(lines, j, k - |piece|);
    }
  }

  /** The whole tool on a file's text. */
  method Rewrite(text: string) returns (out: string)
    ensures RewrittenLines(Split(text)) != []
    ensures out == Join(RewrittenLines(Split(text)))
  {
    NotEmpty(Split(text));
    var lines := RewriteLines(Split(text));
    out := Join(lines);
  }

  lemma NotEmpty(lines: seq<Line>)
    requires lines != []
    ensures RewrittenLines(lines) != []
  {
    var p := SpdxPrefix(lines);
    if p < |lines| {
      FirstLine(lines, p);
    }
  }

  /** A rewritten file is left as it is by the next run. */
  lemma TextIsIdempotent(text: string)
    ensures var lines := RewrittenLines(Split(text));
      lines != [] && Split(Join(lines)) == lines && RewrittenLines(Split(Join(lines))) == lines
  {
    var lines := Split(text);
    NotEmpty(lines);
    forall k | 0 <= k < |Rewritten(lines, SpdxPrefix(lines))| ensures OneLine(Rewritten(lines, SpdxPrefix(lines))[k]) {
      RewrittenIsLines(lines, SpdxPrefix(lines), k);
    }
    SplitJoin(RewrittenLines(lines));
    RewriteIsIdempotent(lines);
  }

  // ---- where the block comment ends ----

  ghost predicate Closes(s: Line) {
    exists i :: 0 <= i < |s| - 1 && s[i] == '*' && s[i + 1] == '/'
  }

  predicate StartsWithSlash(s: Line) {
    s != "" && s[0] == '/'
  }

  /** A middle line holds the closing mark exactly when its content does or starts with
      a slash, as the content of a `////` line does. */
  lemma MiddleLineClosesIff(indent: Line, content: Line)
    requires Blank(indent)
    ensures Closes(MiddleLine(indent, content)) <==> Closes(content) || StartsWithSlash(content)
  {
    var n, s, t := |indent|, indent + " *" + content, MiddleLine(indent, content);
    if Closes(content) {
      var i :| 0 <= i < |content| - 1 && content[i] == '*' && content[i + 1] == '/';
      StripKeeps(s, n + 2 + i + 1);
      assert t[n + 2 + i] == '*' && t[n + 2 + i + 1] == '/';
    }
    if content != "" && content[0] == '/' {
      StripKeeps(s, n + 2);
      assert t[n + 1] == '*' && t[n + 2] == '/';
    }
    if Closes(t) {
      var i :| 0 <= i < |t| - 1 && t[i] == '*' && t[i + 1] == '/';
      assert s[i] == '*' && s[i + 1] == '/';
      if i >= n + 2 {
        assert content[i - (n + 2)] == '*' && content[i - (n + 2) + 1] == '/';
      }
    }
  }

  lemma {:induction false} StripAfterMark(mark: Line, content: Line)
    requires mark != "" && !IsSpace(mark[|mark| - 1])
    ensures RStrip(mark + content) == mark + RStrip(content)
  {
    var s := mark + content;
    if content == "" {
      assert s == mark;
    } else if IsSpace(content[|content| - 1]) {
      StripAfterMark(mark, content[..|content| - 1]);
      assert s[..|s| - 1] == mark + content[..|content| - 1];
    }
  }

  lemma MarkedLine(indent: Line, mark: Line, content: Line)
    requires mark == "/*" || mark == " *"
    ensures var line := RStrip(indent + mark + content);
      |indent| + 2 <= |line| && line[|indent| + 2..] == RStrip(content)
  {
    StripAfterMark(indent + mark, content);
  }

  lemma SlashStays(content: Line)
    ensures RStrip(['/'] + content) != RStrip(content)
  {
    StripAfterMark(['/'], content);
  }

  lemma FromHere(s: Line, n: nat, c: Line)
    requires n < |s| && s[n] == '/' && c == s[n + 1..]
    ensures s[n..] == ['/'] + c
  {
  }

  lemma BehindTwoSlashes(s: Line)
    requires IsComment(s) && Slashes(s) == 3
    ensures Indent(s) + 2 <= |s| && s[Indent(s) + 2..] == ['/'] + ContentOf(s)
  {
    FromHere(s, Indent(s) + 2, ContentOf(s));
  }

  lemma NewLineContent(s: Line, first: bool)
    requires IsComment(s)
    ensures Indent(s) + 2 <= |NewLine(s, first)| && NewLine(s, first)[Indent(s) + 2..] == RStrip(ContentOf(s))
  {
    MarkedLine(IndentOf(s), if first then "/*" else " *", ContentOf(s));
  }

  /** Behind the two characters of its mark the new line reads as the comment line
      did, trailing whitespace aside, exactly when that line had two slashes. */
  lemma ColumnsKeptIff(s: Line, first: bool)
    requires IsComment(s)
    ensures Indent(s) + 2 <= |NewLine(s, first)| && Indent(s) + 2 <= |s|
    ensures NewLine(s, first)[Indent(s) + 2..] == RStrip(s[Indent(s) + 2..]) <==> Slashes(s) == 2
  {
    NewLineContent(s, first);
    if Slashes(s) == 3 {
      BehindTwoSlashes(s);
      SlashStays(ContentOf(s));
    }
  }

  /** Such a line: the slash of a `///` comment is gone from its column. */
  lemma ColumnsLostExample()
    ensures IsComment("/// a") && Indent("/// a") == 0 && Slashes("/// a") == 3
    ensures NewLine("/// a", true)[2..] != RStrip("/// a"[2..])
  {
    assert Indent("/// a") == 0;
    ColumnsKeptIff("/// a", true);
  }

  lemma StripKeepsCloses(content: Line)
    ensures Closes(RStrip(content)) <==> Closes(content)
  {
    var t := RStrip(content);
    if Closes(content) {
      var i :| 0 <= i < |content| - 1 && content[i] == '*' && content[i + 1] == '/';
      StripKeeps(content, i + 1);
      assert t[..i + 2] == content[..i + 2];
      assert t[i] == t[..i + 2][i] && t[i + 1] == t[..i + 2][i + 1];
    }
    if Closes(t) {
      var i :| 0 <= i < |t| - 1 && t[i] == '*' && t[i + 1] == '/';
      assert content[i] == '*' && content[i + 1] == '/';
    }
  }

  /** The text of line `k` of a block in which a closing mark would count: in the first
      line only what follows the opening mark. */
  function Commented(indent: Line, contents: seq<Line>, k: nat): Line
    requires contents != [] && k < |contents|
  {
    MarkedLine(indent, "/*", contents[0]);
    if k == 0 then Block(indent, contents)[0][|indent| + 2..] else Block(indent, contents)[k]
  }

  /** The block comment ends before its last line. */
  ghost predicate ClosesEarly(indent: Line, contents: seq<Line>)
    requires contents != []
  {
    exists k :: 0 <= k < |contents| && Closes(Commented(indent, contents, k))
  }

  /** A content that ends its block: it holds the closing mark or, behind the first
      line, starts with a slash. */
  ghost predicate Ends(content: Line, first: bool) {
    Closes(content) || (!first && StartsWithSlash(content))
  }

  lemma LineClosesIff(indent: Line, contents: seq<Line>, k: nat)
    requires Blank(indent) && contents != [] && k < |contents|
    ensures Closes(Commented(indent, contents, k)) <==> Ends(contents[k], k == 0)
  {
    if k == 0 {
      MarkedLine(indent, "/*", contents[0]);
      StripKeepsCloses(contents[0]);
    } else {
      MiddleLineClosesIff(indent, contents[k]);
    }
  }

  /** A block ends early exactly when one of its contents ends it. */
  lemma BlockClosesEarlyIff(indent: Line, contents: seq<Line>)
    requires Blank(indent) && contents != []
    ensures ClosesEarly(indent, contents) <==> exists k :: 0 <= k < |contents| && Ends(contents[k], k == 0)
  {
    forall k | 0 <= k < |contents| ensures Closes(Commented(indent, contents, k)) <==> Ends(contents[k], k == 0) {
      LineClosesIff(indent, contents, k);
    }
  }

  /** The same, told from the lines of the text. */
  lemma RunClosesEarlyIff(lines: seq<Line>, v: Run)
    requires RunIsThere(lines, v)
    ensures ClosesEarly(v.indent, v.contents) <==> exists k :: v.start <= k < RunStop(v) && LineEnds(lines[k], k == v.start)
  {
    assert Extends(lines[v.start], v.indent);
    IndentIsBlank(lines[v.start]);
    BlockClosesEarlyIff(v.indent, v.contents);
    forall k | v.start <= k < RunStop(v) ensures LineEnds(lines[k], k == v.start) <==> Ends(v.contents[k - v.start], k == v.start) {
      assert Extends(lines[k], v.indent);
    }
    if k :| 0 <= k < |v.contents| && Ends(v.contents[k], k == 0) {
      assert LineEnds(lines[v.start + k], v.start + k == v.start);
    }
  }

  /** So it is for every run the tool finds. */
  lemma FoundRunClosesEarlyIff(lines: seq<Line>, i: nat, n: nat)
    requires i <= |lines| && n < |Violations(lines, i)|
    ensures var v := Violations(lines, i)[n];
      v.contents != [] && (ClosesEarly(v.indent, v.contents) <==>
        exists k :: v.start <= k < RunStop(v) <= |lines| && LineEnds(lines[k], k == v.start))
  {
    RunsAreThere(lines, i, n);
    RunClosesEarlyIff(lines, Violations(lines, i)[n]);
  }

  ghost predicate LineEnds(s: Line, first: bool) {
    IsComment(s) && Ends(ContentOf(s), first)
  }

  lemma ExampleBlock()
    ensures Block("", [" a", "/ b"]) == ["/* a", " */ b", " */"]
  {
    var contents: seq<Line> := [" a", "/ b"];
    assert "" + "/*" + " a" == "/* a" && RStrip("/* a") == "/* a";
    assert "" + " *" + "/ b" == " */ b" && RStrip(" */ b") == " */ b";
    assert "" + " */" == " */";
    var b := Block("", contents);
    assert |b| == 3 && b[0] == "/* a" && b[1] == " */ b" && b[2] == " */";
  }

  lemma ExampleComments()
    ensures Extends("// a", "") && ContentOf("// a") == " a"
    ensures Extends("//// b", "") && ContentOf("//// b") == "/ b"
  {
    assert Indent("// a") == 0 && Indent("//// b") == 0;
  }

  /** Two lines that belong together are one run. */
  lemma PairIsRun(x: Line, y: Line)
    requires Extends(x, "") && Extends(y, "")
    ensures Violations([x, y], 0) == [Run(0, "", [ContentOf(x), ContentOf(y)])]
    ensures Rewritten([x, y], 0) == Block("", [ContentOf(x), ContentOf(y)])
  {
    var lines := [x, y];
    assert RunEnd(lines, 2, "") == 2 && RunEnd(lines, 1, "") == 2 && RunEnd(lines, 0, "") == 2;
    assert Contents(lines, 0, 2) == [ContentOf(x), ContentOf(y)];
    assert Violations(lines, 2) == [] && Rewritten(lines, 2) == [];
  }

  /** It happens: the second line of this text ends the block that the tool makes of it. */
  lemma ClosesEarlyExample()
    ensures Violations(["// a", "//// b"], 0) == [Run(0, "", [" a", "/ b"])]
    ensures RewrittenLines(["// a", "//// b"]) == ["/* a", " */ b", " */"]
    ensures ClosesEarly("", [" a", "/ b"])
  {
    ExampleBlock();
    ExampleComments();
    PairIsRun("// a", "//// b");
    assert SpdxPrefix(["// a", "//// b"]) == 0 by {
      assert "// a"[2..] == " a" && Indent(" a") == 1 && " a"[1..] == "a";
    }
    LineClosesIff("", [" a", "/ b"], 1);
  }
}

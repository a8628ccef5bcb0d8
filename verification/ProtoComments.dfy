/** Finding runs of `//` comment lines and rewriting each as one block comment. */
module ProtoComments {

  type Line = string

  /** The characters Python's `\s` and `rstrip` treat as whitespace. */
  predicate IsSpace(c: char) {
    var n := c as int;
    || 0x09 <= n <= 0x0D || 0x1C <= n <= 0x20 || n == 0x85 || n == 0xA0 || n == 0x1680
    || 0x2000 <= n <= 0x200A || n == 0x2028 || n == 0x2029 || n == 0x202F || n == 0x205F || n == 0x3000
  }

  /** The length of the leading whitespace. */
  function Indent(s: Line): (n: nat)
    ensures n <= |s| && (n < |s| ==> !IsSpace(s[n]))
  {
    if s == "" || !IsSpace(s[0]) then 0 else 1 + Indent(s[1..])
  }

  predicate Blank(s: Line) {
    forall i :: 0 <= i < |s| ==> IsSpace(s[i])
  }

  /** The whitespace it measures is whitespace. */
  lemma {:induction false} IndentIsBlank(s: Line)
    ensures Blank(s[..Indent(s)])
  {
    if s != "" && IsSpace(s[0]) {
      IndentIsBlank(s[1..]);
      assert s[..Indent(s)] == [s[0]] + s[1..][..Indent(s[1..])];
    }
  }

  function RStrip(s: Line): (t: Line)
    ensures t <= s
    ensures t == "" || !IsSpace(t[|t| - 1])
  {
    if s == "" || !IsSpace(s[|s| - 1]) then s else RStrip(s[..|s| - 1])
  }

  // ---- the two patterns ----

  predicate IsComment(s: Line) {
    var n := Indent(s);
    n + 1 < |s| && s[n] == '/' && s[n + 1] == '/'
  }

  /** Two slashes or, greedily, three. */
  function Slashes(s: Line): nat
    requires IsComment(s)
  {
    var n := Indent(s);
    if n + 2 < |s| && s[n + 2] == '/' then 3 else 2
  }

  function IndentOf(s: Line): Line {
    s[..Indent(s)]
  }

  function ContentOf(s: Line): Line
    requires IsComment(s)
  {
    s[Indent(s) + Slashes(s)..]
  }

  predicate IsSpdx(s: Line) {
    |s| >= 2 && s[0] == '/' && s[1] == '/' && "SPDX-" <= s[2 + Indent(s[2..])..]
  }

  function SpdxPrefix(lines: seq<Line>): (n: nat)
    ensures n <= |lines|
    ensures forall i {:trigger IsSpdx(lines[i])} :: 0 <= i < n ==> IsSpdx(lines[i])
    ensures n < |lines| ==> !IsSpdx(lines[n])
  {
    if lines == [] || !IsSpdx(lines[0]) then 0 else 1 + SpdxPrefix(lines[1..])
  }

  // ---- what a violation is ----

  datatype Run = Run(start: nat, indent: Line, contents: seq<Line>)

  predicate Extends(s: Line, indent: Line) {
    IsComment(s) && IndentOf(s) == indent
  }

  /** Where the run of comments at one indent that holds position `i` ends. */
  function RunEnd(lines: seq<Line>, i: nat, indent: Line): (j: nat)
    requires i <= |lines|
    ensures i <= j <= |lines|
    ensures forall k {:trigger Extends(lines[k], indent)} {:trigger IsComment(lines[k])} :: i <= k < j ==>
      Extends(lines[k], indent)
    ensures j < |lines| ==> !Extends(lines[j], indent)
    decreases |lines| - i
  {
    if i < |lines| && Extends(lines[i], indent) then RunEnd(lines, i + 1, indent) else i
  }

  function Contents(lines: seq<Line>, i: nat, j: nat): (cs: seq<Line>)
    requires i <= j <= |lines| && forall k {:trigger IsComment(lines[k])} :: i <= k < j ==> IsComment(lines[k])
    ensures |cs| == j - i && forall k :: 0 <= k < |cs| ==> cs[k] == ContentOf(lines[i + k])
  {
    seq(j - i, k requires 0 <= k < j - i => ContentOf(lines[i + k]))
  }

  /** Two adjacent comment lines at one indent: what the style forbids. */
  predicate Adjacent(s: Line, t: Line) {
    IsComment(s) && Extends(t, IndentOf(s))
  }

  ghost predicate Clean(lines: seq<Line>) {
    forall i :: 0 <= i < |lines| - 1 ==> !Adjacent(lines[i], lines[i + 1])
  }

  /** All runs of two or more comment lines from position `i` on. */
  function Violations(lines: seq<Line>, i: nat): (vs: seq<Run>)
    requires i <= |lines|
    decreases |lines| - i
  {
    if i == |lines| then []
    else if !IsComment(lines[i]) then Violations(lines, i + 1)
    else
      var indent := IndentOf(lines[i]);
      var j := RunEnd(lines, i, indent);
      assert Extends(lines[i], indent);
      (if j - i > 1 then [Run(i, indent, Contents(lines, i, j))] else []) + Violations(lines, j)
  }

  /** There is a violation exactly when two adjacent lines offend. */
  lemma {:induction false} ViolationsIffAdjacent(lines: seq<Line>, i: nat)
    requires i <= |lines|
    ensures Violations(lines, i) == [] <==> Clean(lines[i..])
    decreases |lines| - i
  {
    if i == |lines| {
    } else if !IsComment(lines[i]) {
      ViolationsIffAdjacent(lines, i + 1);
      CleanTail(lines[i..]);
    } else {
      var j := RunEnd(lines, i, IndentOf(lines[i]));
      assert Extends(lines[i], IndentOf(lines[i]));
      if j - i > 1 {
        assert Adjacent(lines[i..][0], lines[i..][1]);
      } else {
        ViolationsIffAdjacent(lines, i + 1);
        CleanTail(lines[i..]);
      }
    }
  }

  lemma CleanTail(lines: seq<Line>)
    requires lines != [] && (|lines| > 1 ==> !Adjacent(lines[0], lines[1]))
    ensures Clean(lines) <==> Clean(lines[1..])
  {
    if Clean(lines[1..]) {
      forall i | 0 <= i < |lines| - 1 ensures !Adjacent(lines[i], lines[i + 1]) {
        if i > 0 {
          assert !Adjacent(lines[1..][i - 1], lines[1..][i]);
        }
      }
    }
    if Clean(lines) {
      forall i | 0 <= i < |lines[1..]| - 1 ensures !Adjacent(lines[1..][i], lines[1..][i + 1]) {
        assert !Adjacent(lines[i + 1], lines[i + 2]);
      }
    }
  }

  // ---- the rewriting ----

  function OpeningLine(indent: Line, content: Line): Line {
    RStrip(indent + "/*" + content)
  }

  function MiddleLine(indent: Line, content: Line): Line {
    RStrip(indent + " *" + content)
  }

  function BlockLine(indent: Line, contents: seq<Line>, k: nat): Line
    requires contents != [] && k <= |contents|
  {
    if k == 0 then OpeningLine(indent, contents[0])
    else if k < |contents| then MiddleLine(indent, contents[k])
    else indent + " */"
  }

  /** The block comment that replaces one run. */
  function Block(indent: Line, contents: seq<Line>): (b: seq<Line>)
    requires contents != []
    ensures |b| == |contents| + 1
  {
    seq(|contents| + 1, k requires 0 <= k <= |contents| => BlockLine(indent, contents, k))
  }

  /** The lines from position `i` on, every longer run replaced by its block. */
  function Rewritten(lines: seq<Line>, i: nat): seq<Line>
    requires i <= |lines|
    decreases |lines| - i
  {
    if i == |lines| then []
    else if !IsComment(lines[i]) then [lines[i]] + Rewritten(lines, i + 1)
    else
      var indent := IndentOf(lines[i]);
      var j := RunEnd(lines, i, indent);
      assert Extends(lines[i], indent);
      (if j - i > 1 then Block(indent, Contents(lines, i, j)) else lines[i..j]) + Rewritten(lines, j)
  }

  function RewrittenLines(lines: seq<Line>): seq<Line> {
    var p := SpdxPrefix(lines);
    lines[..p] + Rewritten(lines, p)
  }

  method SkipSpdx(lines: seq<Line>) returns (i: nat)
    ensures i == SpdxPrefix(lines)
  {
    i := 0;
    while i < |lines| && IsSpdx(lines[i])
      invariant i <= |lines|
      invariant i + SpdxPrefix(lines[i..]) == SpdxPrefix(lines)
    {
      assert lines[i..][1..] == lines[i + 1..];
      i := i + 1;
    }
  }

  method ScanRun(lines: seq<Line>, i: nat) returns (j: nat, contents: seq<Line>)
    requires i < |lines| && IsComment(lines[i])
    ensures i < j == RunEnd(lines, i, IndentOf(lines[i]))
    ensures contents == Contents(lines, i, j)
  {
    var indent := IndentOf(lines[i]);
    contents, j := [], i;
    while j < |lines| && Extends(lines[j], indent)
      invariant i <= j <= |lines| && (j == i ==> Extends(lines[i], indent))
      invariant RunEnd(lines, j, indent) == RunEnd(lines, i, indent)
      invariant forall k {:trigger IsComment(lines[k])} :: i <= k < j ==> IsComment(lines[k])
      invariant contents == Contents(lines, i, j)
    {
      contents := contents + [ContentOf(lines[j])];
      j := j + 1;
    }
  }

  method FindViolations(lines: seq<Line>) returns (vs: seq<Run>)
    ensures vs == Violations(lines, SpdxPrefix(lines))
  {
    vs := [];
    var i := SkipSpdx(lines);
    while i < |lines|
      invariant i <= |lines|
      invariant vs + Violations(lines, i) == Violations(lines, SpdxPrefix(lines))
    {
      if !IsComment(lines[i]) {
        i := i + 1;
      } else {
        var j, contents := ScanRun(lines, i);
        if |contents| > 1 {
          vs := vs + [Run(i, IndentOf(lines[i]), contents)];
        }
        i := j;
      }
    }
  }

  /** Up to the first violation the lines stay, then comes its block, then the rest. */
  ghost predicate SplitsAtFirst(lines: seq<Line>, i: nat)
    requires i <= |lines|
  {
    var vs := Violations(lines, i);
    if vs == [] then Rewritten(lines, i) == lines[i..]
    else
      var v := vs[0];
      var next := v.start + |v.contents|;
      && i <= v.start && |v.contents| >= 2 && next <= |lines|
      && vs[1..] == Violations(lines, next)
      && Rewritten(lines, i) == lines[i..v.start] + (Block(v.indent, v.contents) + Rewritten(lines, next))
  }

  lemma SplitCarriesOver(lines: seq<Line>, i: nat)
    requires i < |lines| && SplitsAtFirst(lines, i + 1)
    requires Violations(lines, i) == Violations(lines, i + 1)
    requires Rewritten(lines, i) == [lines[i]] + Rewritten(lines, i + 1)
    ensures SplitsAtFirst(lines, i)
  {
    if Violations(lines, i + 1) == [] {
      assert lines[i..] == [lines[i]] + lines[i + 1..];
    } else {
      SplitCarriesBlock(lines, i, Violations(lines, i + 1)[0]);
    }
  }

  lemma SplitCarriesBlock(lines: seq<Line>, i: nat, v: Run)
    requires i < v.start && v.contents != [] && v.start + |v.contents| <= |lines|
    requires Rewritten(lines, i) == [lines[i]] + Rewritten(lines, i + 1)
    requires Rewritten(lines, i + 1) ==
      lines[i + 1..v.start] + (Block(v.indent, v.contents) + Rewritten(lines, v.start + |v.contents|))
    ensures Rewritten(lines, i) ==
      lines[i..v.start] + (Block(v.indent, v.contents) + Rewritten(lines, v.start + |v.contents|))
  {
    PrependLine(lines, i, v.start, Block(v.indent, v.contents) + Rewritten(lines, v.start + |v.contents|),
                Rewritten(lines, i + 1));
  }

  lemma PrependLine(lines: seq<Line>, i: nat, j: nat, rest: seq<Line>, tail: seq<Line>)
    requires i < j <= |lines| && tail == lines[i + 1..j] + rest
    ensures [lines[i]] + tail == lines[i..j] + rest
  {
    assert lines[i..j] == [lines[i]] + lines[i + 1..j];
  }

  lemma {:induction false} RewrittenAtFirst(lines: seq<Line>, i: nat)
    requires i <= |lines|
    ensures SplitsAtFirst(lines, i)
    decreases |lines| - i
  {
    if i == |lines| {
    } else if !IsComment(lines[i]) {
      RewrittenAtFirst(lines, i + 1);
      SplitCarriesOver(lines, i);
    } else {
      var j := RunEnd(lines, i, IndentOf(lines[i]));
      assert Extends(lines[i], IndentOf(lines[i]));
      if j == i + 1 {
        RewrittenAtFirst(lines, i + 1);
        assert lines[i..j] == [lines[i]];
        SplitCarriesOver(lines, i);
      } else {
        var v := Run(i, IndentOf(lines[i]), Contents(lines, i, j));
        assert Violations(lines, i) == [v] + Violations(lines, j);
        assert lines[i..i] == [];
      }
    }
  }

  /** What is still to copy and to rewrite completes `out` to the whole result. */
  ghost predicate Copied(lines: seq<Line>, out: seq<Line>, i: nat, from: nat, whole: seq<Line>) {
    i <= from <= |lines| && out + lines[i..from] + Rewritten(lines, from) == whole
  }

  /** Copying up to a block and then the block leaves the rest to do. */
  lemma CopyBlock(lines: seq<Line>, out: seq<Line>, i: nat, from: nat, to: nat, block: seq<Line>, rest: seq<Line>)
    requires i <= from <= to <= |lines|
    ensures out + lines[i..from] + (lines[from..to] + (block + rest)) == (out + lines[i..to] + block) + rest
  {
    assert lines[i..to] == lines[i..from] + lines[from..to];
    Regroup(out, lines[i..from], lines[from..to], block, rest);
  }

  lemma Regroup(out: seq<Line>, a: seq<Line>, b: seq<Line>, block: seq<Line>, rest: seq<Line>)
    ensures out + a + (b + (block + rest)) == (out + (a + b) + block) + rest
  {
  }

  lemma CopyStep(lines: seq<Line>, out: seq<Line>, i: nat, from: nat, v: Run, whole: seq<Line>)
    requires Copied(lines, out, i, from, whole) && Violations(lines, from) != [] && v == Violations(lines, from)[0]
    ensures i <= v.start && v.contents != [] && v.start + |v.contents| <= |lines|
    ensures Violations(lines, from)[1..] == Violations(lines, v.start + |v.contents|)
    ensures (out + lines[i..v.start] + Block(v.indent, v.contents)) + Rewritten(lines, v.start + |v.contents|) == whole
  {
    RewrittenAtFirst(lines, from);
    CopyBlock(lines, out, i, from, v.start, Block(v.indent, v.contents), Rewritten(lines, v.start + |v.contents|));
  }

  lemma CopiedHere(lines: seq<Line>, out: seq<Line>, i: nat, whole: seq<Line>)
    requires i <= |lines| && out + Rewritten(lines, i) == whole
    ensures Copied(lines, out, i, i, whole)
  {
    assert out + lines[i..i] == out;
  }

  lemma CopyStart(lines: seq<Line>)
    ensures Copied(lines, [], 0, SpdxPrefix(lines), RewrittenLines(lines))
  {
    assert [] + lines[0..SpdxPrefix(lines)] == lines[..SpdxPrefix(lines)];
  }

  lemma CopyRest(lines: seq<Line>, out: seq<Line>, i: nat, from: nat, whole: seq<Line>)
    requires Copied(lines, out, i, from, whole) && Violations(lines, from) == []
    ensures out + lines[i..] == whole
  {
    RewrittenAtFirst(lines, from);
    assert lines[i..] == lines[i..from] + lines[from..];
  }

  /** Copies the lines between runs and puts a block in place of each run. */
  method RewriteLines(lines: seq<Line>) returns (out: seq<Line>)
    ensures out == RewrittenLines(lines)
  {
    ghost var whole := RewrittenLines(lines);
    var vs := FindViolations(lines);
    out := [];
    var i: nat := 0;
    ghost var from: nat := SpdxPrefix(lines);
    CopyStart(lines);
    for m := 0 to |vs|
      invariant Copied(lines, out, i, from, whole)
      invariant vs[m..] == Violations(lines, from)
    {
      var v := vs[m];
      assert v == vs[m..][0] && vs[m + 1..] == vs[m..][1..];
      CopyStep(lines, out, i, from, v, whole);
      out := out + lines[i..v.start] + Block(v.indent, v.contents);
      i := v.start + |v.contents|;
      from := i;
      CopiedHere(lines, out, i, whole);
    }
    CopyRest(lines, out, i, from, whole);
    out := out + lines[i..];
  }
}

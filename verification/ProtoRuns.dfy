/** The lines, runs and blocks of the comment checker told apart by their text alone. */
module ProtoRuns {
  import opened ProtoComments
  import opened ProtoRewrite

  // ---- the patterns ----

  /** The 29 whitespace characters. */
  const SPACES: string := "\t\n\U{0B}\U{0C}\r\U{1C}\U{1D}\U{1E}\U{1F} \U{85}\U{A0}\U{1680}\U{2000}\U{2001}\U{2002}\U{2003}\U{2004}\U{2005}\U{2006}\U{2007}\U{2008}\U{2009}\U{200A}\U{2028}\U{2029}\U{202F}\U{205F}\U{3000}"

  lemma SpacesAre(c: char)
    ensures IsSpace(c) <==> c in SPACES
  {
  }

  /** A comment line is whitespace, two slashes and anything. */
  lemma CommentIff(s: Line)
    ensures IsComment(s) <==> exists indent, rest :: Blank(indent) && s == indent + "//" + rest
  {
    if IsComment(s) {
      IndentIsBlank(s);
      var n := Indent(s);
      assert s == s[..n] + "//" + s[n + 2..];
    }
    if indent, rest: Line :| Blank(indent) && s == indent + "//" + rest {
      IndentIs(s, |indent|);
    }
  }

  /** Its parts: the whitespace, two slashes or, if there are more, three, and the rest. */
  lemma CommentParts(s: Line)
    requires IsComment(s)
    ensures Blank(IndentOf(s)) && Slashes(s) in {2, 3} && (Slashes(s) == 2 ==> !StartsWithSlash(ContentOf(s)))
    ensures s == IndentOf(s) + (if Slashes(s) == 3 then "///" else "//") + ContentOf(s)
  {
    IndentIsBlank(s);
  }

  /** A license line is two slashes, whitespace, and text that starts with `SPDX-`. */
  lemma SpdxIff(s: Line)
    ensures IsSpdx(s) <==> exists gap, rest :: Blank(gap) && s == "//" + gap + "SPDX-" + rest
  {
    if IsSpdx(s) {
      SpdxParts(s);
    }
    if gap, rest: Line :| Blank(gap) && s == "//" + gap + "SPDX-" + rest {
      SpdxFound(s, gap, rest);
    }
  }

  lemma StartsWith(p: Line, t: Line)
    requires p <= t
    ensures t == p + t[|p|..]
  {
  }

  lemma SpdxParts(s: Line)
    requires IsSpdx(s)
    ensures exists gap, rest :: Blank(gap) && s == "//" + gap + "SPDX-" + rest
  {
    var n := Indent(s[2..]);
    var gap, tail := s[2..][..n], s[2 + n..];
    IndentIsBlank(s[2..]);
    StartsWith("SPDX-", tail);
    assert s == "//" + gap + tail;
    assert s == "//" + gap + "SPDX-" + tail[5..];
  }

  lemma SpdxFound(s: Line, gap: Line, rest: Line)
    requires Blank(gap) && s == "//" + gap + "SPDX-" + rest
    ensures IsSpdx(s)
  {
    var t := gap + "SPDX-" + rest;
    assert s[2..] == t && t[|gap|] == 'S';
    IndentIs(t, |gap|);
    assert s[2 + |gap|..] == "SPDX-" + rest;
  }

  // ---- the runs ----

  /** The stretch that the search takes in one go at `i`: a whole run, or one line. */
  lemma Stretch(lines: seq<Line>, i: nat) returns (j: nat)
    requires i < |lines|
    ensures i < j <= |lines|
    ensures j < |lines| ==> !Adjacent(lines[j - 1], lines[j])
    ensures forall k :: i <= k < j && IsComment(lines[i]) ==> Extends(lines[k], IndentOf(lines[i]))
    ensures j - i > 1 ==> IsComment(lines[i]) && Violations(lines, i) != [] && Violations(lines, i)[1..] == Violations(lines, j)
    ensures j - i > 1 ==> Violations(lines, i)[0].start == i && RunStop(Violations(lines, i)[0]) == j
    ensures j - i == 1 ==> Violations(lines, i) == Violations(lines, j)
  {
    if IsComment(lines[i]) {
      j := RunEnd(lines, i, IndentOf(lines[i]));
      assert Extends(lines[i], IndentOf(lines[i]));
      assert Extends(lines[j - 1], IndentOf(lines[i]));
    } else {
      j := i + 1;
    }
  }

  /** A run cannot be continued on either side. */
  lemma {:induction false} RunIsMaximal(lines: seq<Line>, i: nat, n: nat)
    requires i <= |lines| && n < |Violations(lines, i)|
    ensures var v := Violations(lines, i)[n];
      && i <= v.start && RunStop(v) <= |lines|
      && (v.start > i ==> !Extends(lines[v.start - 1], v.indent))
      && (RunStop(v) < |lines| ==> !Extends(lines[RunStop(v)], v.indent))
    decreases |lines| - i
  {
    RunsAreThere(lines, i, n);
    var v := Violations(lines, i)[n];
    assert Extends(lines[v.start], v.indent);
    var j := Stretch(lines, i);
    if j - i > 1 && n == 0 {
      assert Extends(lines[j - 1], v.indent);
    } else if j - i > 1 {
      assert v == Violations(lines, j)[n - 1];
      RunIsMaximal(lines, j, n - 1);
    } else {
      RunIsMaximal(lines, j, n);
    }
  }

  /** Two adjacent comment lines at one indent lie in one run. */
  lemma {:induction false} AdjacentInRun(lines: seq<Line>, i: nat, k: nat) returns (n: nat)
    requires i <= k && k + 1 < |lines| && Adjacent(lines[k], lines[k + 1])
    ensures n < |Violations(lines, i)|
    ensures Violations(lines, i)[n].start <= k && k + 1 < RunStop(Violations(lines, i)[n])
    decreases |lines| - i
  {
    var j := Stretch(lines, i);
    if k + 1 < j {
      n := 0;
    } else if j - i > 1 {
      n := AdjacentInRun(lines, j, k);
      assert Violations(lines, i)[n + 1] == Violations(lines, j)[n];
      n := n + 1;
    } else {
      n := AdjacentInRun(lines, j, k);
    }
  }

  // ---- the blocks ----

  lemma ClosingLine(indent: Line, contents: seq<Line>)
    requires contents != []
    ensures Block(indent, contents)[|contents|] == indent + " */" && Closes(indent + " */")
  {
    var s := indent + " */";
    assert s[|indent| + 1] == '*' && s[|indent| + 2] == '/';
  }

  /** The block of run number `n` is closed: the line that comes out just behind the
      run's last line is the run's indent and the closing mark. */
  lemma BlockIsClosed(lines: seq<Line>, i: nat, n: nat)
    requires i <= |lines| && n < |Violations(lines, i)|
    ensures var v := Violations(lines, i)[n];
      var at := RunStop(v) - i + n;
      && v.start < |lines| && 0 <= at < |Rewritten(lines, i)|
      && Rewritten(lines, i)[at] == IndentOf(lines[v.start]) + " */" && Closes(Rewritten(lines, i)[at])
  {
    var v := Violations(lines, i)[n];
    RunsAreThere(lines, i, n);
    assert Extends(lines[v.start], v.indent);
    ClosingLine(v.indent, v.contents);
    BlockOut(lines, i, n, |v.contents|);
  }

  /** The same for the rewritten file. */
  lemma FileBlockIsClosed(lines: seq<Line>, n: nat)
    requires n < |Violations(lines, SpdxPrefix(lines))|
    ensures var v := Violations(lines, SpdxPrefix(lines))[n];
      && v.start < |lines| && RunStop(v) + n < |RewrittenLines(lines)|
      && RewrittenLines(lines)[RunStop(v) + n] == IndentOf(lines[v.start]) + " */"
  {
    BlockClosedBehind(lines, SpdxPrefix(lines), n);
  }

  lemma BlockClosedBehind(lines: seq<Line>, p: nat, n: nat)
    requires p <= |lines| && n < |Violations(lines, p)|
    ensures var v := Violations(lines, p)[n];
      && v.start < |lines| && RunStop(v) + n < |lines[..p] + Rewritten(lines, p)|
      && (lines[..p] + Rewritten(lines, p))[RunStop(v) + n] == IndentOf(lines[v.start]) + " */"
  {
    BlockIsClosed(lines, p, n);
    RunIsMaximal(lines, p, n);
    Behind(lines[..p], Rewritten(lines, p), RunStop(Violations(lines, p)[n]) - p + n);
  }

  lemma Behind(xs: seq<Line>, ys: seq<Line>, m: nat)
    requires m < |ys|
    ensures (xs + ys)[|xs| + m] == ys[m]
  {
  }

  // ---- texts ----

  lemma {:induction false} JoinSplit(text: string)
    ensures Join(Split(text)) == text
  {
    if text != "" {
      JoinSplit(text[1..]);
      var rest := Split(text[1..]);
      assert text == [text[0]] + text[1..];
      if text[0] != '\n' {
        FirstPrefixed(text[0], rest);
      }
    }
  }

  lemma FirstPrefixed(c: char, lines: seq<Line>)
    requires lines != []
    ensures Join([[c] + lines[0]] + lines[1..]) == [c] + Join(lines)
  {
    var more := [[c] + lines[0]] + lines[1..];
    assert more[1..] == lines[1..];
  }

  /** A text without violations is left exactly as it is. */
  lemma CleanTextKept(text: string)
    requires Violations(Split(text), SpdxPrefix(Split(text))) == []
    ensures Join(RewrittenLines(Split(text))) == text
  {
    var lines := Split(text);
    var p := SpdxPrefix(lines);
    RewrittenAtFirst(lines, p);
    assert lines[..p] + lines[p..] == lines;
    JoinSplit(text);
  }
}

/** The structural printer: the `visitor` callback of main.cpp, which writes
    one line per main-file cursor and walks each such cursor's children itself,
    one level deeper, before letting libclang move on to the next sibling.
    Each written line is modelled by what it shows (level, kind, spelling);
    `Render` gives its text. */
module Printer {
  import opened Ast

  /** `std::string(n, '-')`. */
  function Dashes(n: nat): (s: string)
    ensures |s| == n
  {
    if n == 0 then "" else "-" + Dashes(n - 1)
  }

  /** One line of the structural trace. */
  datatype TraceLine = TraceLine(level: nat, kind: CursorKind, spelling: string)

  /** The line the printer writes for a cursor at a level. */
  function Line(c: Cursor, level: nat): TraceLine
  {
    TraceLine(level, c.kind, c.spelling)
  }

  /** The text of a trace line, without its newline:
      `<level dashes> <kind> (<spelling>)`. */
  function Render(t: TraceLine): (r: string)
    ensures |r| == t.level + |KindName(t.kind)| + |t.spelling| + 4
    ensures r[..t.level] == Dashes(t.level) && r[t.level] == ' '
  {
    Dashes(t.level) + " " + KindName(t.kind) + " (" + t.spelling + ")"
  }

  /** The number of '-' a line starts with: reads a level back from a line. */
  function LeadingDashes(s: string): nat
  {
    if s != [] && s[0] == '-' then 1 + LeadingDashes(s[1..]) else 0
  }

  /** Dashes followed by text that starts with a space: the dashes are
      counted exactly. */
  lemma {:induction false} LeadingDashesOf(n: nat, rest: string)
    requires rest != [] && rest[0] == ' '
    ensures LeadingDashes(Dashes(n) + rest) == n
    decreases n
  {
    if n == 0 {
      assert Dashes(n) + rest == rest;
    } else {
      assert (Dashes(n) + rest)[1..] == Dashes(n - 1) + rest;
      LeadingDashesOf(n - 1, rest);
    }
  }

  /** A line at level k starts with exactly k dashes, then a space, and the
      level can be read back from it. */
  lemma RenderLevel(t: TraceLine)
    ensures LeadingDashes(Render(t)) == t.level
    ensures Render(t)[..t.level] == Dashes(t.level) && Render(t)[t.level] == ' '
  {
    var rest := " " + KindName(t.kind) + " (" + t.spelling + ")";
    assert Render(t) == Dashes(t.level) + rest;
    LeadingDashesOf(t.level, rest);
  }

  /** The lines written by `clang_visitChildren(parent, visitor, &level)` when
      `cs` are the parent's children: a cursor outside the main file is
      answered with Continue before anything is written, so neither it nor
      its subtree appears; a main-file cursor gets its line, then its children
      are visited at level + 1, and the callback answers Continue. */
  function VisitorTrace(cs: seq<Cursor>, level: nat): (t: seq<TraceLine>)
    ensures |t| <= SizeSeq(cs)
    decreases SizeSeq(cs)
  {
    if cs == [] then []
    else
      SizeDecreases(cs);
      (if cs[0].inMainFile
       then [Line(cs[0], level)] + VisitorTrace(cs[0].children, level + 1)
       else [])
      + VisitorTrace(cs[1..], level)
  }

  /** Sibling runs are printed one after the other, in child order. */
  lemma {:induction false} VisitorTraceConcat(a: seq<Cursor>, b: seq<Cursor>, level: nat)
    ensures VisitorTrace(a + b, level) == VisitorTrace(a, level) + VisitorTrace(b, level)
    decreases |a|
  {
    if a == [] {
      assert a + b == b;
    } else {
      assert (a + b)[0] == a[0];
      assert (a + b)[1..] == a[1..] + b;
      VisitorTraceConcat(a[1..], b, level);
    }
  }

  /** Pre-order at one child: the lines of the siblings before it, its own
      line, the lines of its subtree one level deeper, then the lines of the
      siblings after it. */
  lemma VisitorTraceAt(cs: seq<Cursor>, i: nat, level: nat)
    requires i < |cs| && cs[i].inMainFile
    ensures VisitorTrace(cs, level) ==
              VisitorTrace(cs[..i], level) + [Line(cs[i], level)]
              + VisitorTrace(cs[i].children, level + 1) + VisitorTrace(cs[i + 1..], level)
  {
    SplitAt(cs, i);
    VisitorTraceConcat(cs[..i] + [cs[i]], cs[i + 1..], level);
    VisitorTraceConcat(cs[..i], [cs[i]], level);
  }

  /** A cursor outside the main file contributes nothing, whatever its
      subtree: the output is that of the siblings without it. */
  lemma VisitorTracePrunes(cs: seq<Cursor>, i: nat, level: nat)
    requires i < |cs| && !cs[i].inMainFile
    ensures VisitorTrace(cs, level) == VisitorTrace(cs[..i] + cs[i + 1..], level)
  {
    SplitAt(cs, i);
    VisitorTraceConcat(cs[..i] + [cs[i]], cs[i + 1..], level);
    VisitorTraceConcat(cs[..i], [cs[i]], level);
    VisitorTraceConcat(cs[..i], cs[i + 1..], level);
  }

  /** Line i of `t` is the line of cursor k[i] at level + d[i]. */
  predicate LinesMatch(t: seq<TraceLine>, k: seq<Cursor>, d: seq<nat>, level: nat)
  {
    |t| == |k| == |d| && forall i :: 0 <= i < |t| ==> t[i] == Line(k[i], level + d[i])
  }

  lemma LinesMatchConcat(t1: seq<TraceLine>, k1: seq<Cursor>, d1: seq<nat>,
                         t2: seq<TraceLine>, k2: seq<Cursor>, d2: seq<nat>, level: nat)
    requires LinesMatch(t1, k1, d1, level) && LinesMatch(t2, k2, d2, level)
    ensures LinesMatch(t1 + t2, k1 + k2, d1 + d2, level)
  {
    forall i | 0 <= i < |t1 + t2|
      ensures (t1 + t2)[i] == Line((k1 + k2)[i], level + (d1 + d2)[i])
    {
      if i >= |t1| {
        assert (t1 + t2)[i] == t2[i - |t1|];
      }
    }
  }

  /** A cursor's line followed by its subtree's lines, one level deeper. */
  lemma LinesMatchNest(c: Cursor, t: seq<TraceLine>, k: seq<Cursor>, d: seq<nat>, level: nat)
    requires LinesMatch(t, k, d, level + 1)
    ensures LinesMatch([Line(c, level)] + t, [c] + k, [0] + Deeper(d), level)
  {
    forall i | 0 <= i < 1 + |t|
      ensures ([Line(c, level)] + t)[i] == Line(([c] + k)[i], level + ([0] + Deeper(d))[i])
    {
      if i > 0 {
        assert ([Line(c, level)] + t)[i] == t[i - 1];
      }
    }
  }

  /** The trace lists exactly the kept cursors in pre-order, one line each,
      each at the starting level plus the cursor's depth below `cs`. */
  lemma {:induction false} VisitorTraceFollowsPreorder(cs: seq<Cursor>, level: nat)
    ensures |VisitorTrace(cs, level)| == |KeptPreorder(cs)|
    ensures forall i :: 0 <= i < |VisitorTrace(cs, level)| ==>
              VisitorTrace(cs, level)[i] == Line(KeptPreorder(cs)[i], level + KeptDepths(cs)[i])
  {
    VisitorTraceMatches(cs, level);
  }

  /** The induction behind VisitorTraceFollowsPreorder, stated with LinesMatch. */
  lemma {:induction false} VisitorTraceMatches(cs: seq<Cursor>, level: nat)
    ensures LinesMatch(VisitorTrace(cs, level), KeptPreorder(cs), KeptDepths(cs), level)
    decreases SizeSeq(cs)
  {
    if cs != [] {
      SizeDecreases(cs);
      var c := cs[0];
      VisitorTraceMatches(c.children, level + 1);
      VisitorTraceMatches(cs[1..], level);
      if c.inMainFile {
        LinesMatchNest(c, VisitorTrace(c.children, level + 1), KeptPreorder(c.children), KeptDepths(c.children), level);
        LinesMatchConcat([Line(c, level)] + VisitorTrace(c.children, level + 1), [c] + KeptPreorder(c.children),
                         [0] + Deeper(KeptDepths(c.children)),
                         VisitorTrace(cs[1..], level), KeptPreorder(cs[1..]), KeptDepths(cs[1..]), level);
      } else {
        assert VisitorTrace(cs, level) == VisitorTrace(cs[1..], level);
        assert KeptPreorder(cs) == KeptPreorder(cs[1..]);
        assert KeptDepths(cs) == KeptDepths(cs[1..]);
      }
    }
  }

  /** Every cursor reached by a kept path of length n is printed at
      level + n - 1: the root's children at the starting level, each child
      one deeper than its parent. */
  lemma {:induction false} VisitorTraceComplete(cs: seq<Cursor>, p: seq<nat>, level: nat)
    requires IsKeptPath(cs, p)
    ensures Line(NodeAt(cs, p), level + |p| - 1) in VisitorTrace(cs, level)
    decreases |p|
  {
    VisitorTraceAt(cs, p[0], level);
    if |p| > 1 {
      VisitorTraceComplete(cs[p[0]].children, p[1..], level + 1);
    }
  }

  /** Where a printed line comes from: the first child's own line, its
      subtree, or the later siblings. */
  lemma VisitorTraceMember(cs: seq<Cursor>, level: nat, line: TraceLine)
    requires line in VisitorTrace(cs, level)
    ensures cs != []
    ensures (cs[0].inMainFile && line == Line(cs[0], level))
         || (cs[0].inMainFile && line in VisitorTrace(cs[0].children, level + 1))
         || line in VisitorTrace(cs[1..], level)
  {
  }

  /** `line` is what the printer writes for the cursor that the kept path
      `p` reaches, at the level the path's length gives. */
  predicate PrintedFor(cs: seq<Cursor>, p: seq<nat>, level: nat, line: TraceLine)
  {
    IsKeptPath(cs, p) && line == Line(NodeAt(cs, p), level + |p| - 1)
  }

  /** Every printed line is the line of a cursor reached by a kept path, at
      the level given by the path's length. */
  lemma {:induction false} VisitorTraceSound(cs: seq<Cursor>, level: nat, line: TraceLine)
    requires line in VisitorTrace(cs, level)
    ensures exists p :: PrintedFor(cs, p, level, line)
    decreases SizeSeq(cs)
  {
    VisitorTraceMember(cs, level, line);
    SizeDecreases(cs);
    if cs[0].inMainFile && line == Line(cs[0], level) {
      assert PrintedFor(cs, [0], level, line);
    } else if cs[0].inMainFile && line in VisitorTrace(cs[0].children, level + 1) {
      VisitorTraceSound(cs[0].children, level + 1, line);
      var q :| PrintedFor(cs[0].children, q, level + 1, line);
      PathIntoFirst(cs, q);
      var p := [0] + q;
      assert |p| == |q| + 1 && level + |p| - 1 == level + 1 + |q| - 1;
      assert PrintedFor(cs, p, level, line);
    } else {
      VisitorTraceSound(cs[1..], level, line);
      var q :| PrintedFor(cs[1..], q, level, line);
      PathIntoRest(cs, q);
      var p := [q[0] + 1] + q[1..];
      assert |p| == |q|;
      assert PrintedFor(cs, p, level, line);
    }
  }
}

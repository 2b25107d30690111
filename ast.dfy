/** The syntax tree that libclang exposes to the analyser, reduced to what the
    analyser queries: a cursor's kind, whether its location is in the main
    file, its spelling, and its children in document order. */
module Ast {

  /** The cursor kinds the analyser tests for (switch, compound and case
      statements), the default label, which it does not count, and every
      other kind, carried with the spelling libclang gives it. */
  datatype CursorKind =
    | SwitchStmt
    | CompoundStmt
    | CaseStmt
    | DefaultStmt
    | OtherKind(name: string)

  datatype Cursor = Cursor(kind: CursorKind, inMainFile: bool, spelling: string, children: seq<Cursor>)

  /** The kind spelling libclang returns for a cursor kind. */
  function KindName(k: CursorKind): string
  {
    match k
    case SwitchStmt => "SwitchStmt"
    case CompoundStmt => "CompoundStmt"
    case CaseStmt => "CaseStmt"
    case DefaultStmt => "DefaultStmt"
    case OtherKind(name) => name
  }

  /** Number of cursors in a tree; the termination measure of every walk. */
  function Size(c: Cursor): nat
    decreases c
  {
    1 + SizeSeq(c.children)
  }

  function SizeSeq(cs: seq<Cursor>): nat
    decreases cs
  {
    if cs == [] then 0 else Size(cs[0]) + SizeSeq(cs[1..])
  }

  /** The first tree's children and the later siblings are both smaller
      forests than the whole: every walk below terminates on this. */
  lemma SizeDecreases(cs: seq<Cursor>)
    requires cs != []
    ensures SizeSeq(cs[0].children) < SizeSeq(cs) && SizeSeq(cs[1..]) < SizeSeq(cs)
  {
  }

  /** Every cursor of the forest `cs`, at any depth, is in the main file. */
  predicate AllInMainFile(cs: seq<Cursor>)
    decreases SizeSeq(cs)
  {
    cs == [] ||
    (SizeDecreases(cs);
     cs[0].inMainFile && AllInMainFile(cs[0].children) && AllInMainFile(cs[1..]))
  }

  /** `p` is a path of child indices into the forest `cs` (p[0] picks a tree,
      p[1] a child of its root, ...) along which every cursor is in the
      main file. */
  predicate IsKeptPath(cs: seq<Cursor>, p: seq<nat>)
    decreases |p|
  {
    |p| > 0 && p[0] < |cs| && cs[p[0]].inMainFile &&
    (|p| == 1 || IsKeptPath(cs[p[0]].children, p[1..]))
  }

  /** The cursor a kept path leads to. */
  function NodeAt(cs: seq<Cursor>, p: seq<nat>): Cursor
    requires IsKeptPath(cs, p)
    decreases |p|
  {
    if |p| == 1 then cs[p[0]] else NodeAt(cs[p[0]].children, p[1..])
  }

  /** The cursors of `cs` whose ancestors (within `cs`) and themselves are all
      in the main file, in depth-first pre-order. */
  function KeptPreorder(cs: seq<Cursor>): seq<Cursor>
    decreases SizeSeq(cs)
  {
    if cs == [] then []
    else
      SizeDecreases(cs);
      (if cs[0].inMainFile then [cs[0]] + KeptPreorder(cs[0].children) else [])
      + KeptPreorder(cs[1..])
  }

  lemma {:induction false} KeptPreorderConcat(a: seq<Cursor>, b: seq<Cursor>)
    ensures KeptPreorder(a + b) == KeptPreorder(a) + KeptPreorder(b)
    decreases |a|
  {
    if a == [] {
      assert a + b == b;
    } else {
      assert (a + b)[0] == a[0];
      assert (a + b)[1..] == a[1..] + b;
      KeptPreorderConcat(a[1..], b);
    }
  }

  /** Pre-order of a forest, one tree at a time. */
  lemma KeptPreorderCons(c: Cursor, rest: seq<Cursor>)
    ensures KeptPreorder([c] + rest) ==
              (if c.inMainFile then [c] + KeptPreorder(c.children) else []) + KeptPreorder(rest)
  {
    assert ([c] + rest)[0] == c && ([c] + rest)[1..] == rest;
  }

  /** Every depth one deeper. */
  function Deeper(ds: seq<nat>): (r: seq<nat>)
    ensures |r| == |ds| && forall i :: 0 <= i < |ds| ==> r[i] == ds[i] + 1
  {
    seq(|ds|, i requires 0 <= i < |ds| => ds[i] + 1)
  }

  /** The depth of each cursor of KeptPreorder(cs) below the forest `cs`:
      0 for a tree of `cs` itself, one more than its parent for any other. */
  function KeptDepths(cs: seq<Cursor>): (ds: seq<nat>)
    ensures |ds| == |KeptPreorder(cs)|
    decreases SizeSeq(cs)
  {
    if cs == [] then []
    else
      SizeDecreases(cs);
      (if cs[0].inMainFile then [0] + Deeper(KeptDepths(cs[0].children)) else [])
      + KeptDepths(cs[1..])
  }

  /** Splitting a forest at one tree: the trees before it, the tree, the
      trees after it. */
  lemma SplitAt(cs: seq<Cursor>, i: nat)
    requires i < |cs|
    ensures cs == cs[..i] + [cs[i]] + cs[i + 1..]
  {
  }

  /** Every cursor reachable by a kept path appears in the pre-order. */
  lemma {:induction false} KeptPreorderComplete(cs: seq<Cursor>, p: seq<nat>)
    requires IsKeptPath(cs, p)
    ensures NodeAt(cs, p) in KeptPreorder(cs)
    decreases |p|
  {
    var i := p[0];
    SplitAt(cs, i);
    KeptPreorderConcat(cs[..i] + [cs[i]], cs[i + 1..]);
    KeptPreorderConcat(cs[..i], [cs[i]]);
    assert KeptPreorder([cs[i]]) == [cs[i]] + KeptPreorder(cs[i].children);
    if |p| > 1 {
      KeptPreorderComplete(cs[i].children, p[1..]);
    }
  }

  /** A kept path into the first tree's children extends to a kept path
      into the forest. */
  lemma PathIntoFirst(cs: seq<Cursor>, q: seq<nat>)
    requires cs != [] && cs[0].inMainFile && IsKeptPath(cs[0].children, q)
    ensures IsKeptPath(cs, [0] + q) && NodeAt(cs, [0] + q) == NodeAt(cs[0].children, q)
  {
    assert ([0] + q)[1..] == q;
  }

  /** A kept path into the later siblings is a kept path into the forest,
      shifted by one. */
  lemma PathIntoRest(cs: seq<Cursor>, q: seq<nat>)
    requires cs != [] && IsKeptPath(cs[1..], q)
    ensures IsKeptPath(cs, [q[0] + 1] + q[1..]) && NodeAt(cs, [q[0] + 1] + q[1..]) == NodeAt(cs[1..], q)
  {
    var p := [q[0] + 1] + q[1..];
    assert p[1..] == q[1..];
    assert cs[p[0]] == cs[1..][q[0]];
  }

  /** Every cursor of the pre-order is reached by some kept path. */
  lemma {:induction false} KeptPreorderSound(cs: seq<Cursor>, c: Cursor)
    requires c in KeptPreorder(cs)
    ensures exists p :: IsKeptPath(cs, p) && NodeAt(cs, p) == c
    decreases SizeSeq(cs)
  {
    SizeDecreases(cs);
    var head := if cs[0].inMainFile then [cs[0]] + KeptPreorder(cs[0].children) else [];
    assert KeptPreorder(cs) == head + KeptPreorder(cs[1..]);
    if c in head {
      if c == cs[0] {
        assert IsKeptPath(cs, [0]) && NodeAt(cs, [0]) == c;
      } else {
        assert c in KeptPreorder(cs[0].children);
        KeptPreorderSound(cs[0].children, c);
        var q :| IsKeptPath(cs[0].children, q) && NodeAt(cs[0].children, q) == c;
        PathIntoFirst(cs, q);
      }
    } else {
      KeptPreorderSound(cs[1..], c);
      var q :| IsKeptPath(cs[1..], q) && NodeAt(cs[1..], q) == c;
      PathIntoRest(cs, q);
    }
  }

  /** At most every cursor is kept, and all are kept exactly when the whole
      forest lies in the main file. */
  lemma {:induction false} KeptPreorderSize(cs: seq<Cursor>)
    ensures |KeptPreorder(cs)| <= SizeSeq(cs)
    ensures |KeptPreorder(cs)| == SizeSeq(cs) <==> AllInMainFile(cs)
    decreases SizeSeq(cs)
  {
    if cs != [] {
      SizeDecreases(cs);
      KeptPreorderSize(cs[0].children);
      KeptPreorderSize(cs[1..]);
    }
  }
}

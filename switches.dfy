/** The switch collector and the case counter of main.cpp's Advanced level.
    Both are libclang callbacks; the client data they update through a
    pointer (the vector of collected cursors, one counter cell of
    `numCases`) is the data threaded through `VisitChildren`. */
module Switches {
  import opened Ast
  import opened ClangVisit
  import opened Printer

  // ---------------------------------------------------------------------
  // Switch collector
  // ---------------------------------------------------------------------

  /** The collector callback: a cursor outside the main file is answered with
      Continue, so its subtree is skipped; any other cursor is appended to the
      collected list when it is a switch statement, and answered with Recurse
      whatever its kind. */
  function CollectSwitch(c: Cursor, found: seq<Cursor>): (r: (ChildVisitResult, seq<Cursor>))
    ensures r.0 != Break
    ensures r.0 == Recurse <==> c.inMainFile
    ensures found <= r.1
    ensures |r.1| == |found| + 1 <==> c.inMainFile && c.kind == SwitchStmt
    ensures |r.1| <= |found| + 1
  {
    if !c.inMainFile then (Continue, found)
    else (Recurse, if c.kind == SwitchStmt then found + [c] else found)
  }

  /** The switch statements of a cursor sequence, in their order. */
  function SwitchesOf(cs: seq<Cursor>): seq<Cursor>
  {
    if cs == [] then []
    else (if cs[0].kind == SwitchStmt then [cs[0]] else []) + SwitchesOf(cs[1..])
  }

  lemma {:induction false} SwitchesOfConcat(a: seq<Cursor>, b: seq<Cursor>)
    ensures SwitchesOf(a + b) == SwitchesOf(a) + SwitchesOf(b)
    decreases |a|
  {
    if a == [] {
      assert a + b == b;
    } else {
      assert (a + b)[0] == a[0];
      assert (a + b)[1..] == a[1..] + b;
      SwitchesOfConcat(a[1..], b);
    }
  }

  lemma {:induction false} SwitchesOfMember(cs: seq<Cursor>, c: Cursor)
    ensures c in SwitchesOf(cs) <==> c in cs && c.kind == SwitchStmt
    decreases |cs|
  {
    if cs != [] {
      SwitchesOfMember(cs[1..], c);
      assert cs == [cs[0]] + cs[1..];
    }
  }

  lemma SwitchesOfSingle(c: Cursor)
    ensures SwitchesOf([c]) == if c.kind == SwitchStmt then [c] else []
  {
    assert [c][1..] == [];
  }

  /** Walking siblings with the collector appends, to what was collected
      before, the switch statements among the kept cursors, in pre-order; no
      callback ever breaks the walk. */
  lemma {:induction false} CollectorWalk(cs: seq<Cursor>, found: seq<Cursor>)
    ensures VisitSiblings(cs, CollectSwitch, found) == Walk(false, found + SwitchesOf(KeptPreorder(cs)))
    decreases SizeSeq(cs), 1
  {
    if cs == [] {
      assert found + [] == found;
    } else if cs[0].inMainFile {
      CollectorWalkKept(cs, found);
    } else {
      SizeDecreases(cs);
      assert VisitSiblings(cs, CollectSwitch, found) == VisitSiblings(cs[1..], CollectSwitch, found);
      assert KeptPreorder(cs) == KeptPreorder(cs[1..]);
      CollectorWalk(cs[1..], found);
    }
  }

  lemma AppendAssoc<T>(w: seq<T>, a: seq<T>, b: seq<T>, x: seq<T>)
    ensures w + (a + b + x) == w + a + b + x
  {
  }

  lemma KeptSwitchesSplit(cs: seq<Cursor>)
    requires cs != [] && cs[0].inMainFile
    ensures SwitchesOf(KeptPreorder(cs)) ==
              SwitchesOf([cs[0]]) + SwitchesOf(KeptPreorder(cs[0].children)) + SwitchesOf(KeptPreorder(cs[1..]))
  {
    assert KeptPreorder(cs) == [cs[0]] + KeptPreorder(cs[0].children) + KeptPreorder(cs[1..]);
    SwitchesOfConcat([cs[0]] + KeptPreorder(cs[0].children), KeptPreorder(cs[1..]));
    SwitchesOfConcat([cs[0]], KeptPreorder(cs[0].children));
  }

  /** The step of CollectorWalk for a first sibling in the main file. */
  lemma {:induction false} CollectorWalkKept(cs: seq<Cursor>, found: seq<Cursor>)
    requires cs != [] && cs[0].inMainFile
    ensures VisitSiblings(cs, CollectSwitch, found) == Walk(false, found + SwitchesOf(KeptPreorder(cs)))
    decreases SizeSeq(cs), 0
  {
    SizeDecreases(cs);
    var c := cs[0];
    var a, b := SwitchesOf([c]), SwitchesOf(KeptPreorder(c.children));
    SwitchesOfSingle(c);
    assert found + [] == found;
    assert CollectSwitch(c, found) == (Recurse, found + a);
    VisitSiblingsRecurse(cs, CollectSwitch, found);
    CollectorWalk(c.children, found + a);
    CollectorWalk(cs[1..], found + a + b);
    KeptSwitchesSplit(cs);
    AppendAssoc(found, a, b, SwitchesOf(KeptPreorder(cs[1..])));
  }

  /** The vector the collector fills when the whole translation unit is
      visited from its root cursor: the switch statements among the cursors
      reached through main-file cursors only, in depth-first pre-order. */
  function CollectSwitches(root: Cursor): (switches: seq<Cursor>)
    ensures switches == SwitchesOf(KeptPreorder(root.children))
  {
    CollectorWalk(root.children, []);
    VisitChildren(root, CollectSwitch, []).data
  }

  /** A cursor is collected exactly when it is a switch statement that a kept
      path reaches; switches nested in switches are collected too. */
  lemma CollectSwitchesExactly(root: Cursor, c: Cursor)
    ensures c in CollectSwitches(root) <==>
              c.kind == SwitchStmt && exists p :: IsKeptPath(root.children, p) && NodeAt(root.children, p) == c
  {
    SwitchesOfMember(KeptPreorder(root.children), c);
    if c in KeptPreorder(root.children) {
      KeptPreorderSound(root.children, c);
    }
    if c.kind == SwitchStmt && exists p :: IsKeptPath(root.children, p) && NodeAt(root.children, p) == c {
      var p :| IsKeptPath(root.children, p) && NodeAt(root.children, p) == c;
      KeptPreorderComplete(root.children, p);
    }
  }

  /** Number of structural-trace lines that show a switch statement. */
  function SwitchLines(t: seq<TraceLine>): nat
  {
    if t == [] then 0 else (if t[0].kind == SwitchStmt then 1 else 0) + SwitchLines(t[1..])
  }

  lemma {:induction false} SwitchLinesConcat(a: seq<TraceLine>, b: seq<TraceLine>)
    ensures SwitchLines(a + b) == SwitchLines(a) + SwitchLines(b)
    decreases |a|
  {
    if a == [] {
      assert a + b == b;
    } else {
      assert (a + b)[1..] == a[1..] + b;
      SwitchLinesConcat(a[1..], b);
    }
  }

  /** The reported switch count equals the number of SwitchStmt lines of
      the structural trace: both passes keep the same cursors. */
  lemma {:induction false} SwitchCountMatchesTrace(cs: seq<Cursor>, level: nat)
    ensures |SwitchesOf(KeptPreorder(cs))| == SwitchLines(VisitorTrace(cs, level))
    decreases SizeSeq(cs)
  {
    if cs != [] {
      SizeDecreases(cs);
      var c := cs[0];
      SwitchCountMatchesTrace(c.children, level + 1);
      SwitchCountMatchesTrace(cs[1..], level);
      var kh := if c.inMainFile then [c] + KeptPreorder(c.children) else [];
      var th := if c.inMainFile then [Line(c, level)] + VisitorTrace(c.children, level + 1) else [];
      SwitchesOfConcat(kh, KeptPreorder(cs[1..]));
      SwitchLinesConcat(th, VisitorTrace(cs[1..], level));
      if c.inMainFile {
        SwitchesOfConcat([c], KeptPreorder(c.children));
        SwitchLinesConcat([Line(c, level)], VisitorTrace(c.children, level + 1));
      }
    }
  }

  // ---------------------------------------------------------------------
  // Case counter
  // ---------------------------------------------------------------------

  /** The innermost callback: adds one to the counter for a case statement
      and never descends. */
  function TallyCase(c: Cursor, count: nat): (r: (ChildVisitResult, nat))
    ensures r.0 == Continue
    ensures count <= r.1 <= count + 1
    ensures r.1 == count + 1 <==> c.kind == CaseStmt
  {
    (Continue, if c.kind == CaseStmt then count + 1 else count)
  }

  /** The callback run on a switch's children: on the first compound
      statement it counts that statement's children with TallyCase and breaks
      off; any other child is passed over. No main-file test is made. */
  function FindBody(c: Cursor, count: nat): (r: (ChildVisitResult, nat))
    ensures r.0 != Recurse
    ensures r.0 == Break <==> c.kind == CompoundStmt
    ensures r.1 == count + if c.kind == CompoundStmt then CaseLabels(c.children) else 0
  {
    if c.kind == CompoundStmt then
      TallyWalk(c.children, count);
      (Break, VisitChildren(c, TallyCase, count).data)
    else (Continue, count)
  }

  /** Number of case statements among the cursors of `cs` themselves (not
      their descendants). */
  function CaseLabels(cs: seq<Cursor>): nat
  {
    if cs == [] then 0 else (if cs[0].kind == CaseStmt then 1 else 0) + CaseLabels(cs[1..])
  }

  /** Index of the first compound statement among `cs`, or |cs| if none. */
  function FirstCompound(cs: seq<Cursor>): (j: nat)
    ensures j <= |cs|
    ensures j < |cs| ==> cs[j].kind == CompoundStmt
    ensures forall k :: 0 <= k < j ==> cs[k].kind != CompoundStmt
  {
    if cs == [] || cs[0].kind == CompoundStmt then 0 else 1 + FirstCompound(cs[1..])
  }

  /** The number of cases a switch has: the case statements directly under
      its first compound-statement child, or 0 when it has none. */
  function CasesOf(sw: Cursor): nat
  {
    var j := FirstCompound(sw.children);
    if j < |sw.children| then CaseLabels(sw.children[j].children) else 0
  }

  /** Walking a compound statement's children with TallyCase adds their
      number of case statements to the counter and never breaks. */
  lemma {:induction false} TallyWalk(cs: seq<Cursor>, count: nat)
    ensures VisitSiblings(cs, TallyCase, count) == Walk(false, count + CaseLabels(cs))
    decreases |cs|
  {
    if cs != [] {
      TallyWalk(cs[1..], TallyCase(cs[0], count).1);
    }
  }

  /** Walking a switch's children with FindBody: the walk breaks exactly when
      a compound statement is found, and the counter grows by the cases of
      the first one; children after it are never visited. */
  lemma {:induction false} FindBodyWalk(cs: seq<Cursor>, count: nat)
    ensures var j := FirstCompound(cs);
            VisitSiblings(cs, FindBody, count) ==
              if j < |cs| then Walk(true, count + CaseLabels(cs[j].children)) else Walk(false, count)
    decreases |cs|
  {
    if cs != [] {
      if cs[0].kind == CompoundStmt {
        TallyWalk(cs[0].children, count);
      } else {
        FindBodyWalk(cs[1..], count);
      }
    }
  }

  /** The counter cell for a switch ends at its start value plus the
      switch's case count. */
  lemma CaseCountOfSwitch(sw: Cursor, count: nat)
    ensures VisitChildren(sw, FindBody, count).data == count + CasesOf(sw)
  {
    FindBodyWalk(sw.children, count);
  }

  /** Case statements below the direct children of the body are not counted:
      the count depends only on the kinds of those children. */
  lemma {:induction false} CaseLabelsDirectOnly(a: seq<Cursor>, b: seq<Cursor>)
    requires |a| == |b|
    requires forall i :: 0 <= i < |a| ==> a[i].kind == b[i].kind
    ensures CaseLabels(a) == CaseLabels(b)
    decreases |a|
  {
    if a != [] {
      assert forall i :: 0 <= i < |a| - 1 ==> a[1..][i] == a[i + 1] && b[1..][i] == b[i + 1];
      CaseLabelsDirectOnly(a[1..], b[1..]);
    }
  }

  /** The case count never exceeds the number of children of the body. */
  lemma {:induction false} CaseLabelsBound(cs: seq<Cursor>)
    ensures CaseLabels(cs) <= |cs|
    decreases |cs|
  {
    if cs != [] {
      CaseLabelsBound(cs[1..]);
    }
  }

  /** One turn of the numCases loop: the counter cell of switch i, passed to
      the callbacks by pointer, grows by the switch's case count; no other
      cell changes. */
  method CountSwitchCases(numCases: array<nat>, i: nat, sw: Cursor)
    requires i < numCases.Length
    modifies numCases
    ensures numCases[i] == old(numCases[i]) + CasesOf(sw)
    ensures forall k :: 0 <= k < numCases.Length && k != i ==> numCases[k] == old(numCases[k])
  {
    CaseCountOfSwitch(sw, numCases[i]);
    numCases[i] := VisitChildren(sw, FindBody, numCases[i]).data;
  }

  /** `numCases`: a vector of zeros as long as the switch list, then one
      counting pass per switch; entry i is the case count of switch i. */
  method CountCases(switches: seq<Cursor>) returns (numCases: seq<nat>)
    ensures |numCases| == |switches|
    ensures forall i :: 0 <= i < |switches| ==> numCases[i] == CasesOf(switches[i])
  {
    var counts := new nat[|switches|](_ => 0);
    for i := 0 to |switches|
      invariant forall k :: 0 <= k < i ==> counts[k] == CasesOf(switches[k])
      invariant forall k :: i <= k < |switches| ==> counts[k] == 0
    {
      CountSwitchCases(counts, i, switches[i]);
    }
    numCases := counts[..];
  }
}

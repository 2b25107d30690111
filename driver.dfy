/** `main`: argument checking, level selection, and the level-gated report
    that follows the structural trace. Parsing the file (libclang), reading
    its size and turning the level argument into a number (`atoi`) happen
    outside the model: the driver receives the translation unit's root
    cursor, the kinds of the tokens of the whole main file, and the parsed
    level argument. */
module Driver {
  import opened Ast
  import opened Tokens
  import opened Printer
  import opened Switches
  import opened Report

  /** The `Requirement` levels. */
  const Basic := 1
  const Advanced := 2
  const Uplifting := 3
  const Ultimate := 4

  const UsageText := "Parse filename [level] [options ...]"

  /** What `main` decides from its arguments: stop with the usage text, or
      analyse at a level. */
  datatype Invocation = UsageError | Analyze(level: int)

  /** Argument check and level selection. `levelArg` is what `atoi` made of
      the second argument; it is looked at only when that argument exists.
      Two to four arguments (program name included) are accepted; the level
      is Ultimate unless the level argument is Basic, Advanced or Uplifting. */
  function SelectLevel(argc: int, levelArg: int): (r: Invocation)
    ensures r.UsageError? <==> argc < 2 || argc > 4
    ensures r.Analyze? ==> Basic <= r.level <= Ultimate
    ensures r.Analyze? ==> (r.level < Ultimate <==> argc > 2 && Basic <= levelArg <= Uplifting)
    ensures r.Analyze? && r.level < Ultimate ==> r.level == levelArg
  {
    if argc < 2 || argc > 4 then UsageError
    else if argc > 2 && Basic <= levelArg <= Uplifting then Analyze(levelArg)
    else Analyze(Ultimate)
  }

  /** The trace lines as text. */
  function RenderAll(t: seq<TraceLine>): (lines: seq<string>)
    ensures |lines| == |t|
    ensures forall i :: 0 <= i < |t| ==> lines[i] == Render(t[i])
  {
    if t == [] then [] else [Render(t[0])] + RenderAll(t[1..])
  }

  /** The case count of each collected switch, in collection order. */
  function CaseCounts(switches: seq<Cursor>): (counts: seq<nat>)
    ensures |counts| == |switches|
    ensures forall i :: 0 <= i < |switches| ==> counts[i] == CasesOf(switches[i])
  {
    seq(|switches|, i requires 0 <= i < |switches| => CasesOf(switches[i]))
  }

  /** The Advanced-level lines: the switch count, then the case line only
      when some switch was found. */
  function SwitchReport(switches: seq<Cursor>): seq<string>
  {
    [SwitchLine(|switches|)] + (if |switches| > 0 then [CaseLine(CaseCounts(switches))] else [])
  }

  /** Standard output of an analysis at a level: the structural trace of the
      whole translation unit starting at level 0, the keyword count from
      Basic on, the switch report from Advanced on. Uplifting and Ultimate
      add nothing. */
  function Transcript(level: int, root: Cursor, tokens: seq<TokenKind>): (out: seq<string>)
    ensures var trace := RenderAll(VisitorTrace(root.children, 0));
            |trace| <= |out| && out[..|trace|] == trace
    ensures |out| - |VisitorTrace(root.children, 0)| ==
              (if level >= Basic then 1 else 0)
              + (if level >= Advanced then (if |CollectSwitches(root)| > 0 then 2 else 1) else 0)
  {
    RenderAll(VisitorTrace(root.children, 0))
    + (if level >= Basic then [KeywordsLine(KeywordCount(tokens))] else [])
    + (if level >= Advanced then SwitchReport(CollectSwitches(root)) else [])
  }

  /** `main`, from the arguments to the exit code and what is written to
      standard output (one string per line; the usage text is written
      without a newline). */
  method RunAnalyzer(argc: int, levelArg: int, root: Cursor, tokens: seq<TokenKind>)
    returns (exitCode: int, stdout: seq<string>)
    ensures SelectLevel(argc, levelArg).UsageError? ==> exitCode == 1 && stdout == [UsageText]
    ensures SelectLevel(argc, levelArg).Analyze? ==>
              exitCode == 0 && stdout == Transcript(SelectLevel(argc, levelArg).level, root, tokens)
  {
    var invocation := SelectLevel(argc, levelArg);
    if invocation.UsageError? {
      return 1, [UsageText];
    }
    var level := invocation.level;
    stdout := RenderAll(VisitorTrace(root.children, 0));
    if level >= Basic {
      var numKeywords := GetKeywordCount(tokens);
      stdout := stdout + [KeywordsLine(numKeywords)];
    }
    if level >= Advanced {
      var cursors := CollectSwitches(root);
      stdout := stdout + [SwitchLine(|cursors|)];
      if |cursors| > 0 {
        var numCases := CountCases(cursors);
        assert numCases == CaseCounts(cursors);
        stdout := stdout + [CaseLine(numCases)];
      }
    }
    exitCode := 0;
  }

  /** From Advanced on, the transcript ends with the switch report. */
  lemma AdvancedTail(level: int, root: Cursor, tokens: seq<TokenKind>)
    requires level >= Advanced
    ensures var out := Transcript(level, root, tokens);
            var sr := SwitchReport(CollectSwitches(root));
            |sr| <= |out| && out[|out| - |sr|..] == sr
  {
  }

  /** Uplifting and Ultimate write exactly what Advanced writes. */
  lemma UpperLevelsAsAdvanced(level: int, root: Cursor, tokens: seq<TokenKind>)
    requires level >= Advanced
    ensures Transcript(level, root, tokens) == Transcript(Advanced, root, tokens)
  {
  }

  /** No trace line can be mistaken for a report line: each starts with a
      '-' or a space. */
  lemma RenderStart(t: TraceLine)
    ensures |Render(t)| > 0 && (Render(t)[0] == '-' || Render(t)[0] == ' ')
  {
    RenderLevel(t);
  }

  lemma NoTraceLineHasPrefix(t: seq<TraceLine>, prefix: string, i: nat)
    requires |prefix| > 0 && prefix[0] != '-' && prefix[0] != ' '
    requires i < |t|
    ensures !HasPrefix(RenderAll(t)[i], prefix)
  {
    RenderStart(t[i]);
  }

  /** The first letters of the report lines, which tell them apart. */
  lemma ReportLineHeads(keywords: nat, switches: nat, counts: seq<nat>)
    ensures KeywordsLine(keywords)[0] == 'k'
    ensures SwitchLine(switches)[0] == 's' && SwitchLine(switches)[1] == 'w'
    ensures CaseLine(counts)[0] == 'c'
  {
  }

  /** For every accepted invocation, the keyword line is written, and it
      reads back as the number of keyword tokens. */
  lemma KeywordsAlwaysReported(argc: int, levelArg: int, root: Cursor, tokens: seq<TokenKind>)
    requires SelectLevel(argc, levelArg).Analyze?
    ensures var out := Transcript(SelectLevel(argc, levelArg).level, root, tokens);
            var n := |VisitorTrace(root.children, 0)|;
            n < |out| && ParseLabelled("keywords: ", out[n]) == Some(KeywordCount(tokens))
  {
    KeywordsLineRoundTrip(KeywordCount(tokens));
  }

  /** A line starting with "case:" is written exactly when the level is at
      least Advanced and at least one switch was collected; it then reads
      back as the case counts of the collected switches, in order. */
  lemma CaseLineGating(level: int, root: Cursor, tokens: seq<TokenKind>)
    ensures var out := Transcript(level, root, tokens);
            (exists i :: 0 <= i < |out| && HasPrefix(out[i], "case:")) <==>
              level >= Advanced && |CollectSwitches(root)| > 0
    ensures var out := Transcript(level, root, tokens);
            forall i :: 0 <= i < |out| && HasPrefix(out[i], "case:") ==>
              ParseCaseLine(out[i]) == Some(CaseCounts(CollectSwitches(root)))
  {
    var out := Transcript(level, root, tokens);
    var t := VisitorTrace(root.children, 0);
    var switches := CollectSwitches(root);
    var kw := if level >= Basic then [KeywordsLine(KeywordCount(tokens))] else [];
    var sr := if level >= Advanced then SwitchReport(switches) else [];
    assert out == RenderAll(t) + kw + sr;
    forall i | 0 <= i < |out| && HasPrefix(out[i], "case:")
      ensures level >= Advanced && |switches| > 0 && out[i] == CaseLine(CaseCounts(switches))
    {
      if i < |t| {
        NoTraceLineHasPrefix(t, "case:", i);
      } else {
        ReportLineHeads(KeywordCount(tokens), |switches|, CaseCounts(switches));
      }
    }
    forall i | 0 <= i < |out| && HasPrefix(out[i], "case:")
      ensures ParseCaseLine(out[i]) == Some(CaseCounts(switches))
    {
      CaseLineRoundTrip(CaseCounts(switches));
    }
    if level >= Advanced && |switches| > 0 {
      var i := |out| - 1;
      assert out[i] == CaseLine(CaseCounts(switches));
      assert out[i][..5] == "case:";
    }
  }

  /** A line starting with "switch: " is written exactly when the level is at
      least Advanced, and it reads back as the number of collected
      switches. */
  lemma SwitchLineGating(level: int, root: Cursor, tokens: seq<TokenKind>)
    ensures var out := Transcript(level, root, tokens);
            (exists i :: 0 <= i < |out| && HasPrefix(out[i], "switch: ")) <==> level >= Advanced
    ensures var out := Transcript(level, root, tokens);
            forall i :: 0 <= i < |out| && HasPrefix(out[i], "switch: ") ==>
              ParseLabelled("switch: ", out[i]) == Some(|CollectSwitches(root)|)
  {
    var out := Transcript(level, root, tokens);
    var t := VisitorTrace(root.children, 0);
    var switches := CollectSwitches(root);
    var kw := if level >= Basic then [KeywordsLine(KeywordCount(tokens))] else [];
    var sr := if level >= Advanced then SwitchReport(switches) else [];
    assert out == RenderAll(t) + kw + sr;
    forall i | 0 <= i < |out| && HasPrefix(out[i], "switch: ")
      ensures level >= Advanced && out[i] == SwitchLine(|switches|)
    {
      if i < |t| {
        NoTraceLineHasPrefix(t, "switch: ", i);
      } else {
        ReportLineHeads(KeywordCount(tokens), |switches|, CaseCounts(switches));
      }
    }
    forall i | 0 <= i < |out| && HasPrefix(out[i], "switch: ")
      ensures ParseLabelled("switch: ", out[i]) == Some(|switches|)
    {
      SwitchLineRoundTrip(|switches|);
    }
    if level >= Advanced {
      var i := |t| + |kw|;
      assert out[i] == SwitchLine(|switches|);
      assert out[i][..8] == "switch: ";
    }
  }

  // ---------------------------------------------------------------------
  // Worked examples
  // ---------------------------------------------------------------------

  function Leaf(kind: CursorKind, spelling: string): Cursor
  {
    Cursor(kind, true, spelling, [])
  }

  /** `switch (<subject>) { <labels> }`. */
  function SwitchOn(subject: string, labels: seq<Cursor>): Cursor
  {
    Cursor(SwitchStmt, true, "", [Leaf(OtherKind("DeclRefExpr"), subject), Cursor(CompoundStmt, true, "", labels)])
  }

  /** The translation unit of a main file holding one function whose body
      holds the given statements. */
  function UnitOf(name: string, statements: seq<Cursor>): Cursor
  {
    Cursor(OtherKind("TranslationUnit"), false, "main.c",
      [Cursor(OtherKind("FunctionDecl"), true, name, [Cursor(CompoundStmt, true, "", statements)])])
  }

  /** The switches collected from a unit whose function body holds the
      given statements. */
  lemma CollectedFromUnit(name: string, statements: seq<Cursor>)
    ensures CollectSwitches(UnitOf(name, statements)) == SwitchesOf(KeptPreorder(statements))
  {
    var body := Cursor(CompoundStmt, true, "", statements);
    var f := Cursor(OtherKind("FunctionDecl"), true, name, [body]);
    assert UnitOf(name, statements).children == [f];
    KeptPreorderCons(f, []);
    KeptPreorderCons(body, []);
    assert [f] + [] == [f] && [body] + [] == [body];
    var inner := KeptPreorder(statements);
    assert KeptPreorder([body]) == [body] + inner;
    assert KeptPreorder([f]) == [f] + ([body] + inner);
    SwitchesOfConcat([f], [body] + inner);
    SwitchesOfConcat([body], inner);
    SwitchesOfSingle(f);
    SwitchesOfSingle(body);
  }

  /** Childless main-file cursors, none of them a switch. */
  predicate PlainLabels(labels: seq<Cursor>)
  {
    forall i :: 0 <= i < |labels| ==>
      labels[i].inMainFile && labels[i].children == [] && labels[i].kind != SwitchStmt
  }

  lemma {:induction false} LeavesPreorder(cs: seq<Cursor>)
    requires PlainLabels(cs)
    ensures KeptPreorder(cs) == cs
    decreases |cs|
  {
    if cs != [] {
      KeptPreorderCons(cs[0], cs[1..]);
      assert [cs[0]] + cs[1..] == cs;
      LeavesPreorder(cs[1..]);
    }
  }

  lemma {:induction false} NoSwitches(cs: seq<Cursor>)
    requires forall i :: 0 <= i < |cs| ==> cs[i].kind != SwitchStmt
    ensures SwitchesOf(cs) == []
    decreases |cs|
  {
    if cs != [] {
      NoSwitches(cs[1..]);
    }
  }

  /** The only switch of a switch over plain labels is itself. */
  lemma SwitchOnSwitches(subject: string, labels: seq<Cursor>)
    requires PlainLabels(labels)
    ensures SwitchesOf(KeptPreorder([SwitchOn(subject, labels)])) == [SwitchOn(subject, labels)]
  {
    var sw := SwitchOn(subject, labels);
    var x := Leaf(OtherKind("DeclRefExpr"), subject);
    var body := Cursor(CompoundStmt, true, "", labels);
    LeavesPreorder(labels);
    KeptPreorderCons(sw, []);
    KeptPreorderCons(x, [body]);
    KeptPreorderCons(body, []);
    KeptPreorderCons(x, []);
    assert KeptPreorder([sw]) == [sw] + ([x] + ([body] + labels));
    SwitchesOfConcat([sw], [x] + ([body] + labels));
    SwitchesOfConcat([x], [body] + labels);
    SwitchesOfConcat([body], labels);
    SwitchesOfSingle(sw);
    SwitchesOfSingle(x);
    SwitchesOfSingle(body);
    NoSwitches(labels);
  }

  /** A switch built by SwitchOn has the cases among its labels. */
  lemma SwitchOnCases(subject: string, labels: seq<Cursor>)
    ensures CasesOf(SwitchOn(subject, labels)) == CaseLabels(labels)
  {
    var cs := SwitchOn(subject, labels).children;
    assert FirstCompound(cs[1..]) == 0;
  }

  /** `void <name>(){ switch(<subject>){case 1: break; case 2: break; default: break;} }`
      at the Advanced level: one switch, two cases; the default label is not
      counted. */
  lemma OneSwitchTwoCases(name: string, subject: string, tokens: seq<TokenKind>)
    ensures var out := Transcript(Advanced, UnitOf(name, [SwitchOn(subject, [Leaf(CaseStmt, ""), Leaf(CaseStmt, ""), Leaf(DefaultStmt, "")])]), tokens);
            |out| >= 2 && out[|out| - 2] == "switch: 1" && out[|out| - 1] == "case: 2"
  {
    var labels := [Leaf(CaseStmt, ""), Leaf(CaseStmt, ""), Leaf(DefaultStmt, "")];
    var sw := SwitchOn(subject, labels);
    var root := UnitOf(name, [sw]);
    CollectedFromUnit(name, [sw]);
    SwitchOnSwitches(subject, labels);
    SwitchOnCases(subject, labels);
    assert CaseLabels(labels) == 2;
    var counts := CaseCounts([sw]);
    assert counts == [2];
    assert CaseLine([2]) == "case: 2";
    assert SwitchLine(1) == "switch: 1";
    assert SwitchReport([sw]) == [SwitchLine(1), CaseLine(counts)];
    AdvancedTail(Advanced, root, tokens);
  }

  /** Two sibling switches over plain labels are both collected, in order. */
  lemma TwoSwitchesCollected(name: string, sw1: Cursor, sw2: Cursor)
    requires sw1.kind == SwitchStmt && sw2.kind == SwitchStmt
    requires SwitchesOf(KeptPreorder([sw1])) == [sw1] && SwitchesOf(KeptPreorder([sw2])) == [sw2]
    ensures CollectSwitches(UnitOf(name, [sw1, sw2])) == [sw1, sw2]
  {
    CollectedFromUnit(name, [sw1, sw2]);
    assert [sw1] + [sw2] == [sw1, sw2];
    KeptPreorderConcat([sw1], [sw2]);
    SwitchesOfConcat(KeptPreorder([sw1]), KeptPreorder([sw2]));
  }

  /** The case counts of a switch with three cases and one with none. */
  lemma ThreeAndZeroCases(subject: string)
    ensures var labels := [Leaf(CaseStmt, ""), Leaf(CaseStmt, ""), Leaf(CaseStmt, "")];
            CaseCounts([SwitchOn(subject, labels), SwitchOn(subject, [])]) == [3, 0]
  {
    var labels := [Leaf(CaseStmt, ""), Leaf(CaseStmt, ""), Leaf(CaseStmt, "")];
    SwitchOnCases(subject, labels);
    SwitchOnCases(subject, []);
    assert CaseLabels(labels) == 3;
  }

  /** Two sibling switches with three cases and none: `switch: 2` and
      `case: 3 0`. */
  lemma TwoSiblingSwitches(name: string, subject: string, tokens: seq<TokenKind>)
    ensures var out := Transcript(Advanced, UnitOf(name, [SwitchOn(subject, [Leaf(CaseStmt, ""), Leaf(CaseStmt, ""), Leaf(CaseStmt, "")]), SwitchOn(subject, [])]), tokens);
            |out| >= 2 && out[|out| - 2] == "switch: 2" && out[|out| - 1] == "case: 3 0"
  {
    var labels := [Leaf(CaseStmt, ""), Leaf(CaseStmt, ""), Leaf(CaseStmt, "")];
    var sw1 := SwitchOn(subject, labels);
    var sw2 := SwitchOn(subject, []);
    var root := UnitOf(name, [sw1, sw2]);
    SwitchOnSwitches(subject, labels);
    SwitchOnSwitches(subject, []);
    TwoSwitchesCollected(name, sw1, sw2);
    ThreeAndZeroCases(subject);
    CaseLineThreeZero();
    assert SwitchLine(2) == "switch: 2";
    assert SwitchReport([sw1, sw2]) == [SwitchLine(2), CaseLine([3, 0])];
    AdvancedTail(Advanced, root, tokens);
  }

  lemma CaseLineThreeZero()
    ensures CaseLine([3, 0]) == "case: 3 0"
  {
    assert [3, 0][1..] == [0];
    assert CaseFields([0]) == " 0";
  }

  /** A switch that comes from an included header is neither printed nor
      counted, even though it sits in the translation unit. */
  lemma HeaderSwitchIgnored(name: string, subject: string, tokens: seq<TokenKind>)
    ensures var out := Transcript(Advanced, UnitOf(name, [SwitchOn(subject, [Leaf(CaseStmt, "")]).(inMainFile := false)]), tokens);
            |out| >= 1 && out[|out| - 1] == "switch: 0"
  {
    var sw := SwitchOn(subject, [Leaf(CaseStmt, "")]).(inMainFile := false);
    var root := UnitOf(name, [sw]);
    CollectedFromUnit(name, [sw]);
    KeptPreorderCons(sw, []);
    assert CollectSwitches(root) == [];
    assert SwitchLine(0) == "switch: 0";
    AdvancedTail(Advanced, root, tokens);
  }
}

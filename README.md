# Syntax metrics over a libclang translation unit

This project models `Lab2/main.cpp`. That program is a command-line analyser that parses one C/C++ file with libclang and writes three things to standard output:

- **The structural trace.** It has one line per cursor whose location is in the main file, in depth-first pre-order. Each line is the cursor's depth in dashes, a space, the cursor-kind spelling and the cursor spelling in parentheses. A cursor outside the main file is skipped with its whole subtree.
- **At level Basic (1) and above:** `keywords: N`. N is the number of Keyword tokens in the whole main file.
- **At level Advanced (2) and above:**
  - `switch: N`, where N is the number of switch statements reached through main-file cursors only, nested switches included.
  - When N > 0, a line `case:` followed by ` k` for each collected switch, in collection order. k is the number of `case` labels that are direct children of the switch's first compound-statement child. `default` labels and labels in nested blocks are not counted.

The level is 4 (Ultimate) unless a second argument reads as 1, 2 or 3. Fewer than one or more than three arguments give the usage text and exit code 1.

Modules:

- `Ast` (ast.dfy): the cursor tree. It also holds a reference definition of "kept" cursors, both as kept paths of child indices and as `KeptPreorder`, and relates the two.
- `ClangVisit` (clang_visit.dfy): the traversal protocol of `clang_visitChildren` (Break, Continue, Recurse), which the program relies on. It is written as a generic function over the client data that the callbacks update.
- `Printer` (printer.dfy): the recursive `visitor` that writes the structural trace. Lines are records (`TraceLine`), and `Render` gives their text.
- `Tokens` (tokens.dfy): token kinds, `_getTokenKindSpelling`, and the keyword-counting loop.
- `Switches` (switches.dfy): the switch-collector callback and the two nested case-counter callbacks. It also holds the `numCases` loop over an array.
- `Report` (report.dfy): the decimal report lines, and readers that recover the numbers from them.
- `Driver` (driver.dfy): argument checking, level selection, the level-gated output of `main`, and worked examples.

## Model

| member | source | states |
|---|---|---|
| Ast.KeptPreorderComplete | Lab2/main.cpp:130-149 | every cursor reached by a path of main-file cursors is in the kept pre-order |
| Ast.KeptPreorderSound | Lab2/main.cpp:130-149 | every cursor in the kept pre-order is reached by such a path |
| Ast.KeptPreorderSize | Lab2/main.cpp:133-135 | the kept cursors are at most all cursors, and exactly all of them iff every cursor is in the main file |
| ClangVisit.VisitSiblingsConcat | Lab2/main.cpp:202-241 | visiting `a + b` visits `a`, then `b` from the client data `a` left, unless a callback broke off |
| ClangVisit.VisitSiblings | Lab2/main.cpp:202-241 | walking siblings leaves the client data unchanged when there are none, and is never broken off when the callback never answers Break; VisitSiblingsConcat gives the order of the walk |
| ClangVisit.VisitChildren | Lab2/main.cpp:202-241 | the same for the children of a parent: a childless parent leaves the client data unchanged, and a callback that never answers Break never ends the walk early |
| Printer.Render | Lab2/main.cpp:142-144 | a line starts with exactly `level` dashes and a space, and is as long as the dashes, the kind spelling and the cursor spelling plus four characters (two spaces, two parentheses) |
| Printer.VisitorTrace | Lab2/main.cpp:130-149 | at most one line per cursor of the forest; VisitorTraceFollowsPreorder, VisitorTraceComplete and VisitorTraceSound characterise it fully |
| Printer.Dashes | Lab2/main.cpp:142 | the indentation of a level-n line is n characters long |
| Printer.RenderLevel | Lab2/main.cpp:142-144 | a rendered line starts with exactly `level` dashes and a space, so the level reads back from the line |
| Printer.VisitorTraceConcat | Lab2/main.cpp:130-149 | sibling runs are printed one after the other, in child order |
| Printer.VisitorTraceAt | Lab2/main.cpp:139-146 | a main-file child's line comes after its earlier siblings' lines, then its subtree one level deeper, then its later siblings |
| Printer.VisitorTracePrunes | Lab2/main.cpp:133-135 | removing a cursor outside the main file, with its whole subtree, changes nothing in the trace |
| Printer.VisitorTraceFollowsPreorder | Lab2/main.cpp:130-149 | the trace has one line per kept cursor, in pre-order, and line i is kept cursor i's line at the start level plus that cursor's depth (KeptDepths, defined on the tree alone) |
| Printer.VisitorTraceComplete | Lab2/main.cpp:139-146 | the cursor reached by a kept path of length n is printed at start level + n - 1 |
| Printer.VisitorTraceSound | Lab2/main.cpp:139-146 | every printed line belongs to a cursor reached by a kept path, at the level the path length gives |
| Tokens.TokenKindSpelling | Lab2/main.cpp:58-81 | the spelling is "Keyword" iff the kind is Keyword, and "Unknown" iff the kind is none of the five enumerators |
| Tokens.TokenKindSpellingInjective | Lab2/main.cpp:58-81 | distinct enumerators get distinct spellings |
| Tokens.GetKeywordCount | Lab2/main.cpp:151-162 | the loop returns the number of Keyword tokens |
| Tokens.KeywordCountIsMultiplicity | Lab2/main.cpp:157-159 | the keyword count is the multiplicity of Keyword in the token multiset |
| Tokens.KeywordCountPermutation | Lab2/main.cpp:157-159 | reordering the tokens does not change the count |
| Tokens.KeywordCountSameKeywords | Lab2/main.cpp:157-159 | only which positions hold keywords matters |
| Tokens.KeywordCountBound | Lab2/main.cpp:153-159 | the count is at most the number of tokens, with equality iff every token is a keyword |
| Switches.CollectSwitch | Lab2/main.cpp:204-214 | the collector callback never breaks, descends exactly into main-file cursors, and only appends: one cursor exactly when it is a main-file switch statement |
| Switches.CollectorWalk | Lab2/main.cpp:202-215 | the collector walk never breaks, and appends to the vector the switches among the kept cursors, in pre-order |
| Switches.CollectorWalkKept | Lab2/main.cpp:206-213 | the same when the first sibling is in the main file: it is appended if it is a switch, and its subtree is walked before the next sibling |
| Switches.CollectSwitches | Lab2/main.cpp:200-215 | the collected vector is the switch statements of the kept pre-order of the translation unit |
| Switches.CollectSwitchesExactly | Lab2/main.cpp:206-213 | a cursor is collected iff it is a switch statement reached by a path of main-file cursors |
| Switches.SwitchCountMatchesTrace | Lab2/main.cpp:202-216 | the reported switch count equals the number of trace lines whose kind is SwitchStmt |
| Switches.TallyCase | Lab2/main.cpp:230-235 | the innermost callback always answers Continue and adds one exactly for a case statement |
| Switches.FindBody | Lab2/main.cpp:224-240 | the callback breaks exactly on a compound statement, never descends, and adds the number of case statements among that statement's direct children |
| Switches.FirstCompound | Lab2/main.cpp:224-239 | the index of the first compound-statement child, or the child count when there is none |
| Switches.TallyWalk | Lab2/main.cpp:228-236 | the innermost walk never breaks, and adds the number of case statements among the body's direct children |
| Switches.FindBodyWalk | Lab2/main.cpp:222-241 | the walk over a switch's children breaks iff it has a compound child, and then adds the case labels of the first one only |
| Switches.CaseCountOfSwitch | Lab2/main.cpp:222-241 | the counter cell of a switch ends at its start value plus the switch's case count |
| Switches.CaseLabelsDirectOnly | Lab2/main.cpp:228-236 | the case count depends only on the kinds of the body's direct children, not on anything below them |
| Switches.CaseLabelsBound | Lab2/main.cpp:232-233 | a switch has no more cases than its body has direct children |
| Switches.CountSwitchCases | Lab2/main.cpp:222-241 | one loop turn adds the switch's case count to cell i and leaves every other cell alone |
| Switches.CountCases | Lab2/main.cpp:219-242 | the case-count vector is as long as the switch list, and entry i is the case count of switch i |
| Report.Decimal | Lab2/main.cpp:196 | an unsigned value is written as digits only, with no leading zero unless it is 0 |
| Report.DecimalRoundTrip | Lab2/main.cpp:196 | the decimal text reads back as the number |
| Report.KeywordsLineRoundTrip | Lab2/main.cpp:196 | the keywords line reads back as the keyword count |
| Report.SwitchLineRoundTrip | Lab2/main.cpp:216 | the switch line reads back as the switch count |
| Report.CaseFieldsRoundTrip | Lab2/main.cpp:244-247 | the ` k` fields read back as the counts, in order |
| Report.CaseLineRoundTrip | Lab2/main.cpp:243-248 | the case line reads back as exactly the counts it was written from |
| Driver.SelectLevel | Lab2/main.cpp:166-180 | usage error iff argc < 2 or argc > 4; otherwise the level is 1..4, and below 4 exactly when a level argument in 1..3 was given, in which case it is that argument |
| Driver.RenderAll | Lab2/main.cpp:142-144 | one text line per trace line, each the rendering of its trace line |
| Driver.Transcript | Lab2/main.cpp:191-249 | the output starts with the whole rendered trace, followed by one keyword line from Basic on, plus one switch line and, when some switch was found, one case line from Advanced on |
| Driver.RunAnalyzer | Lab2/main.cpp:164-250 | a usage error writes only the usage text with exit code 1; otherwise the output is the level-gated transcript with exit code 0 |
| Driver.RenderStart | Lab2/main.cpp:142 | every trace line starts with '-' or ' ' |
| Driver.NoTraceLineHasPrefix | Lab2/main.cpp:142-144 | no trace line can be mistaken for a report line |
| Driver.KeywordsAlwaysReported | Lab2/main.cpp:194-197 | at every accepted level the line right after the trace reads back as the keyword count |
| Driver.CaseLineGating | Lab2/main.cpp:198-249 | a `case:` line is written iff the level is at least Advanced and some switch was collected, and it reads back as the per-switch case counts |
| Driver.SwitchLineGating | Lab2/main.cpp:198-216 | a `switch: ` line is written iff the level is at least Advanced, and it reads back as the number of collected switches |
| Driver.AdvancedTail | Lab2/main.cpp:198-249 | from level Advanced on, the output ends with the switch report |
| Driver.UpperLevelsAsAdvanced | Lab2/main.cpp:251-254 | levels Uplifting and Ultimate write exactly what Advanced writes |
| Driver.OneSwitchTwoCases | Lab2/main.cpp:202-248 | for any function and subject names, one switch with two cases and a default ends the output with `switch: 1` and `case: 2` |
| Driver.TwoSiblingSwitches | Lab2/main.cpp:202-248 | for any function and subject names, sibling switches with three and zero cases end the output with `switch: 2` and `case: 3 0` |
| Driver.HeaderSwitchIgnored | Lab2/main.cpp:206-208 | a switch from an included header is not counted: the output ends with `switch: 0` |

## Left out

- libclang itself is not modelled; the model assumes the following about it:
  - the cursor tree, with kinds, spellings and main-file locations;
  - the token list of the file;
  - the traversal order of `clang_visitChildren`, which ClangVisit states.
- Kind spellings other than those of the three kinds the program tests (switch, compound and case statements) are carried as given. The default label is named only so that a switch body can hold one.
- Switches.SwitchCountMatchesTrace: it counts trace lines whose kind is SwitchStmt, not lines whose text shows "SwitchStmt". `OtherKind("SwitchStmt")` renders the same text, and the model does not exclude such a kind, because libclang's spellings are outside the model.
- `getFilesize` and `getFilerange` (lines 25-56) are left out. They are file I/O and source-range building, so the keyword counter receives the token kinds of the whole main file.
- Driver.RunAnalyzer: the model assumes `getFilerange` finds the file's first and last locations and the range between them. When it cannot (lines 40-45 and 49-53), the program has already written the trace. It then prints "cannot retrieve location" or "cannot retrieve range" and exits with status 1, and the model does not cover that path.
- `showAllTokens` (lines 83-110) is left out because nothing calls it. `_getTokenKindSpelling`, which only it uses, is modelled.
- Creating and disposing the index and the translation unit are left out. So is the `exit(-1)` taken when parsing fails (lines 182-189 and 256-257), because parsing is outside the model.
  - A failed parse ends with status -1 (255 to a POSIX shell), not with the usage status 1.
- `atoi` (line 177) is left out. The driver receives the number it produced. A non-numeric argument gives 0, which selects level 4.
- The Uplifting block (lines 251-254) is left out because it is empty. Levels 3 and 4 write what level 2 writes.
- Standard output is modelled as a sequence of lines, so it does not model the bytes exactly:
  - the usage text is written without a newline;
  - `endl` flushing is not modelled.
- Driver.RunAnalyzer: the `unsigned` widths of the depth counter, the keyword counter and the case counters are not modelled, because they cannot wrap. Depth is bounded by the tree and the counts by the number of tokens or children.
- Printer.VisitorTrace: the printer is written as direct recursion, not as a callback passed to `ClangVisit.VisitChildren`. A callback that re-enters the traversal on a smaller tree cannot be a total function value. Its Continue-only behaviour is written out instead: a non-main-file cursor is skipped, and a printed cursor's children are visited one level deeper.
- Token spellings and locations are not modelled. Only token kinds affect the output of the core.

# SLR(1) table generator — a verified model

This project models the algorithmic core of `gramatica.py`, a generator of
SLR(1) parsing tables written in Python. It takes a grammar in a small text
format. It checks the grammar and augments it with `S' -> S eof`. It computes
the FIRST and FOLLOW sets as fixed points and builds the canonical collection
of LR(0) item sets with its transitions. It then fills the action/goto table,
recording every conflict.

The model follows the program phase by phase, one Dafny module per phase:

| file | module | what it models |
|---|---|---|
| `results.dfy` | `Results` | `Option` and `Result` |
| `grammar.dfy` | `GrammarModel` | the `Gramatica` record, its index of productions by left side, `validar` |
| `text.dfy` | `ProductionText` | Python's `strip`/`split`, `tokenizar_producao`, the splitting of one production line |
| `augment.dfy` | `Augmentation` | `aumentar_gramatica` |
| `first.dfy` | `FirstSets` | `calcular_conjuntos_first` and its fixed point |
| `follow.dfy` | `FollowSets` | `calcular_conjuntos_follow` and its fixed point |
| `items.dfy` | `LR0Items` | `fechamento` (closure) and `ir_para` (goto) |
| `order.dfy` | `SymbolOrder` | the order in which a state's symbols are visited |
| `automaton.dfy` | `LR0Automaton` | `construir_automato_lr0` |
| `table.dfy` | `SlrTable` | `construir_tabela_slr` up to line 419, and `verificar_conflitos_slr` |
| `sets.dfy` | `SetSteps` | small set facts shared by the worklist loops |
| `analyzer.dfy` | `SlrAnalyzer` | the `AnalisadorSLR` object: its phase fields and the line loop of `analisar_gramatica` |
| `aliasing.dfy` | `FollowAliasing` | the FOLLOW sweep as written, where `trailer` can share a FIRST set, and a grammar on which it differs from the copying sweep |

Where the Python code is a loop that updates variables, the model is a
`method` with a loop. Each such method is proved against a specification
function, for example:

- `Validate` against `ExpectedIssues`;
- `TokenizeRight` against `Tokens`;
- `ComputeFirst` against `FirstPass`;
- `Closure` against `ClosureOf`;
- `BuildRow` against `ApplyWrites`.

Separate lemmas then prove what the program promises about those functions:
fixed points, least maps satisfying the FIRST and FOLLOW rules, closure, reachability and the meaning of each
table cell.

The `AnalisadorSLR` object becomes the class `SlrAnalyzer.Analyzer`. Its
fields hold each phase's result, and its methods check that the earlier
phases have run, as the source does.

Python iterates over the items of a state in an order it does not fix. The
table builder therefore picks items in an arbitrary order within each of the
two loops over a state's items, and keeps a ghost log of the writes it
performs. The second loop always runs after the first. Every table property
is stated for any order within the loops:

- the row is the log applied in order;
- the log is the first loop's writes, then the second loop's accept, if any;
- the log holds exactly the writes the items demand, the first loop at most
  one per item and column;
- when the log records no conflict on a cell, every demanded action agrees;
- in a state with `S' -> S . eof`, the end-of-input cell ends as accept, and
  any other action demanded there is recorded as a conflict.

## Model

| member | source | states |
|---|---|---|
| GrammarModel.ProductionsOfSpec | gramatica.py:14-16 | every entry of the index for `a` names production `a -> right` at that index; entries are in increasing index order; every production of `a` is listed |
| GrammarModel.ProductionsOfEmpty | gramatica.py:14-16 | a symbol has no indexed productions exactly when it is not a left side |
| GrammarModel.LeftSymbolsSnoc | gramatica.py:15-16 | one more production adds exactly its left side to the set of left sides |
| GrammarModel.BuildLeftIndex | gramatica.py:14-17 | the index has the left sides as keys, each with that symbol's productions in order |
| GrammarModel.NewGrammar | gramatica.py:7-17 | the record stores the five fields unchanged, with a correct left-side index |
| GrammarModel.UndeclaredInRuleSpec | gramatica.py:36-38 | the issues of one production are empty iff all its right-side symbols are declared; each issue names an undeclared symbol of that production |
| GrammarModel.UndeclaredIssuesSpec | gramatica.py:35-38 | the issues of all productions are empty iff every right-side symbol is declared; each issue is an undeclared occurrence in some production |
| GrammarModel.ExpectedIssuesEmptyIff | gramatica.py:29-44 | the issue list is empty iff the start symbol has a production, every right-side symbol is declared, and the two symbol lists are disjoint |
| GrammarModel.RuleIssues | gramatica.py:36-38 | the inner loop yields one issue per undeclared symbol, in order |
| GrammarModel.UndeclaredAll | gramatica.py:35-38 | the outer loop yields the issues of every production, in order |
| GrammarModel.Validate | gramatica.py:29-44 | `validar` returns the start issue, then the undeclared occurrences, then the overlap issue; the list is empty exactly for a well-formed grammar |
| ProductionText.SkipSpacesSpec | gramatica.py:59 | leading whitespace skipped by `strip` is all whitespace, and stops at a non-space |
| ProductionText.TrimEndSpec | gramatica.py:59 | trailing whitespace removed by `strip` is all whitespace, and stops at a non-space |
| ProductionText.StripSpec | gramatica.py:59 | `strip` returns a slice with only whitespace cut from both ends, and a non-empty result starts and ends with a non-space |
| ProductionText.WordLength | gramatica.py:64 | the length of the leading word: no space inside, a space (or the end) after it |
| ProductionText.SplitWhitespaceSpec | gramatica.py:64 | the words of `split()` concatenate to the text without its whitespace, and none is empty or holds whitespace |
| ProductionText.WithoutSpacesOfWord | gramatica.py:64 | removing whitespace keeps a word that has none and continues with the rest |
| ProductionText.RunLength | gramatica.py:70-79 | the length of the leading run of non-terminal characters, stopped by a terminal character or the end |
| ProductionText.SegmentConcat | gramatica.py:66-86 | the tokens of the no-space branch concatenate back to the input |
| ProductionText.SegmentShape | gramatica.py:66-86 | every token is one terminal character or a non-empty run without terminal characters, and two runs are never adjacent |
| ProductionText.SegmentAfterRun | gramatica.py:73-79 | a run followed by a terminal character (or the end) is emitted as one token |
| ProductionText.SegmentChars | gramatica.py:66-86 | the character loop emits the tokens `Segment` describes |
| ProductionText.TokenizeRight | gramatica.py:55-86 | `tokenizar_producao` returns `Tokens`: empty for empty, `vazio` and `epsilon`; the word split when there is a space; otherwise the character segmentation |
| ProductionText.TokensSpec | gramatica.py:55-86 | empty markers give no tokens; with a space, the tokens are non-empty and concatenate to the text without whitespace; without, they concatenate to the stripped text, are well shaped, and no two runs are adjacent |
| ProductionText.FindArrow | gramatica.py:130-133 | the first occurrence of `->` at or after a position, or none |
| ProductionText.SplitOnJoin | gramatica.py:140 | `split` on a separator yields parts without the separator that join back to the input |
| ProductionText.UnquoteAllSpec | gramatica.py:151-155 | each token is unquoted in place, one symbol per token |
| ProductionText.UnquoteTokens | gramatica.py:150-155 | the loop unquotes every token in order |
| ProductionText.AlternativeRightSide | gramatica.py:143-155 | an empty, `vazio` or `epsilon` alternative is an epsilon production; any other is tokenized and unquoted |
| ProductionText.AlternativeRights | gramatica.py:142-157 | one right side per alternative, the one `AlternativeRightSide` gives for it, in order |
| ProductionText.WithLeft | gramatica.py:142-157 | every alternative becomes a production of the same left side, in order |
| ProductionText.AlternativeProductions | gramatica.py:142-157 | the alternatives loop appends one production per alternative, in order |
| ProductionText.SplitProductionLine | gramatica.py:130-157 | a line without `->` or with an empty left side raises; otherwise it yields one production per alternative between vertical bars |
| Augmentation.Augment | gramatica.py:173-184 | production 0 is `S' -> start eof`, old production i moves to i+1, `S'` heads the non-terminals and becomes the start, and the index is rebuilt |
| Augmentation.Shifted | gramatica.py:177-183 | index entries shifted by one keep their right sides |
| Augmentation.ProductionsOfPrepend | gramatica.py:177-183 | prepending a production of another symbol shifts every index entry of a symbol by one |
| Augmentation.AugmentedIndex | gramatica.py:181-183 | after augmentation each old left side lists its old productions shifted by one, no other symbol gains an entry, and `S'` lists production 0 |
| Augmentation.StartOnlyProduction | gramatica.py:177-183 | when no other production has `S'` on its left, its only entry is production 0 |
| FirstSets.FirstPass | gramatica.py:202-220 | one pass keeps the keys of the map |
| FirstSets.ScanFirstGrows | gramatica.py:205-217 | scanning a right side only adds to FIRST of its left side |
| FirstSets.FirstStepGrows | gramatica.py:205-217 | one production's update only adds to sets |
| FirstSets.FirstPassGrows | gramatica.py:202-220 | a pass only adds to sets, and every prefix of a pass adds no more than the whole pass |
| FirstSets.ScanFirstElements | gramatica.py:205-217 | the scan adds only epsilon, terminals, or right-side symbols that have no entry |
| FirstSets.FirstStepElements | gramatica.py:205-217 | one production's update keeps FIRST sets within those elements |
| FirstSets.MissingShrinks | gramatica.py:199-220 | a pass that changes something shrinks the finite set of missing pairs, so the `while mudou` loop ends |
| FirstSets.FirstElementsInUniverse | gramatica.py:199-220 | every FIRST set lies in a finite universe fixed by the grammar |
| FirstSets.ScanProduction | gramatica.py:205-217 | the scan loop of one production computes `ScanFirst` |
| FirstSets.FirstPassLoop | gramatica.py:202-220 | one `for` pass computes `FirstPass`, only adds, and reports a change exactly when the map changed |
| FirstSets.InitializeFirst | gramatica.py:190-197 | the starting map: empty for non-terminals and left sides, `{t}` for each terminal |
| FirstSets.AddLeftSides | gramatica.py:192-194 | every left side gets an empty entry |
| FirstSets.AddTerminals | gramatica.py:196-197 | every terminal gets `{t}`, overriding an earlier entry |
| FirstSets.ScanFirstMonotone | gramatica.py:205-217 | the scan is monotone in the map and in the starting set |
| FirstSets.FirstPassMonotone | gramatica.py:202-220 | a pass is monotone in the map |
| FirstSets.FirstPassPreserves | gramatica.py:202-220 | a pass keeps FIRST elements well formed and leaves the sets of non-left-sides unchanged |
| FirstSets.FirstPassPrefixPreserves | gramatica.py:202-220 | the same holds for every prefix of a pass |
| FirstSets.StablePassPrefix | gramatica.py:199-220 | when a whole pass changes nothing, neither does any prefix of it |
| FirstSets.StablePassStep | gramatica.py:202-220 | when a whole pass changes nothing, no production's scan changes its left side |
| FirstSets.StableScanRule | gramatica.py:205-217 | a scan that changes nothing means the FIRST rule of that production holds |
| FirstSets.FixedPointFirstRules | gramatica.py:199-220 | at the fixed point every production satisfies the FIRST rule (nullable prefixes pass FIRST on; a fully nullable right side gives epsilon) |
| FirstSets.RuleStableScan | gramatica.py:205-217 | when the FIRST rule of a production holds, its scan adds nothing |
| FirstSets.RulesStablePass | gramatica.py:202-220 | when every production's FIRST rule holds, no prefix of a pass changes the map |
| FirstSets.FirstSolutionIffRules | gramatica.py:199-220 | a map with the starting entries is left unchanged by a pass exactly when it satisfies the FIRST rule of every production |
| FirstSets.FixedPointEpsilonProduction | gramatica.py:205-206 | at the fixed point FIRST of the left side of an epsilon production contains epsilon |
| FirstSets.ComputeFirst | gramatica.py:186-223 | the result is a fixed point of a pass, keeps `{t}` for every terminal that is not a left side, holds only well-formed elements, satisfies the FIRST rule of every production, and lies below every map that satisfies them all |
| FollowSets.ScanFollow | gramatica.py:245-267 | the right-to-left sweep keeps the keys when every non-terminal has one |
| FollowSets.FollowPass | gramatica.py:242-267 | one pass keeps the keys when every non-terminal has one |
| FollowSets.ScanFollowGrows | gramatica.py:245-262 | the sweep only adds to FOLLOW sets |
| FollowSets.FollowPassGrows | gramatica.py:242-267 | a pass only adds, and every prefix adds no more than the whole pass |
| FollowSets.ScanFollowBounded | gramatica.py:245-267 | the sweep adds only eof, right-side symbols and elements of FIRST sets |
| FollowSets.ScanFollowEpsilonFree | gramatica.py:245-267 | when eof and the right sides are not epsilon and terminals have `{t}`, the sweep never adds epsilon |
| FollowSets.FollowPassPrefixPreserves | gramatica.py:242-267 | every prefix of a pass stays within that finite universe and stays epsilon-free |
| FollowSets.TrailerAtStep | gramatica.py:254-267 | the trailer before position j is the next trailer of the one before j+1 |
| FollowSets.TrailerKeepsStart | gramatica.py:254-255 | across tracked nullable symbols the trailer keeps its starting set |
| FollowSets.TrailerHasContribution | gramatica.py:254-267 | the trailer left of position j holds what each later symbol, reached over tracked nullable symbols only, contributes: its FIRST set without epsilon when nullable, else the set it resets to |
| FollowSets.TrailerWithin | gramatica.py:243-267 | the trailer holds nothing but those contributions and, when every later symbol is tracked and nullable, FOLLOW of the left side |
| FollowSets.StableScanFollow | gramatica.py:245-262 | a sweep that changes nothing already holds each trailer in the FOLLOW set it flows into |
| FollowSets.StableStepRule | gramatica.py:242-262 | a production whose sweep changes nothing satisfies the FOLLOW rule: FOLLOW of each tracked symbol holds the contributions after it and, if the rest is nullable, FOLLOW of the left side |
| FollowSets.TrailersStableScan | gramatica.py:245-262 | a sweep whose trailers already lie in the FOLLOW sets they flow into changes nothing |
| FollowSets.RuleStableStep | gramatica.py:242-262 | when the FOLLOW rule of a production holds, its sweep changes nothing |
| FollowSets.RulesStableFollowPass | gramatica.py:239-267 | when every production's FOLLOW rule holds, no prefix of a pass changes the map |
| FollowSets.FollowSolutionIffRules | gramatica.py:229-267 | a map with the starting entries is left unchanged by a pass exactly when it satisfies the FOLLOW rule of every production |
| FollowSets.StableFollowPrefix | gramatica.py:239-267 | when a whole pass changes nothing, neither does any prefix of it |
| FollowSets.StableFollowPassStep | gramatica.py:239-267 | when a whole pass changes nothing, no production's sweep does |
| FollowSets.FixedPointFollowRules | gramatica.py:239-267 | at the fixed point every production satisfies the FOLLOW rule |
| FollowSets.ScanFollowMonotone | gramatica.py:245-267 | the sweep is monotone in the map and in the trailer |
| FollowSets.FollowPassMonotone | gramatica.py:242-267 | a pass is monotone in the map |
| FollowSets.SweepProduction | gramatica.py:243-267 | the sweep loop of one production computes `FollowStep` and reports whether a set changed |
| FollowSets.FollowPassLoop | gramatica.py:242-267 | one `for` pass computes `FollowPass`, only adds, and reports a change exactly when the map changed |
| FollowSets.InitializeFollow | gramatica.py:229-237 | the starting map: empty sets for non-terminals, left sides and the start, with eof in FOLLOW of the start |
| FollowSets.ComputeFollow | gramatica.py:225-270 | the result contains eof in FOLLOW of the start, is a fixed point, is epsilon-free under the input conditions above, satisfies the FOLLOW rule of every production, and lies below every map that satisfies them all |
| LR0Items.ValidItemsInAll | gramatica.py:272-292 | in-range items lie in the finite set of all items of the grammar |
| LR0Items.ClosureOfIsClosure | gramatica.py:272-292 | the closure contains the items, is closed under prediction, is the least closed set, and is the only set with these properties |
| LR0Items.ClosureUnique | gramatica.py:272-292 | two closures of the same items are equal |
| LR0Items.ClosedIsOwnClosure | gramatica.py:272-292 | a closed set is its own closure |
| LR0Items.ClosureIdempotent | gramatica.py:272-292 | closing a closure changes nothing |
| LR0Items.ClosureMonotone | gramatica.py:272-292 | more items give a larger closure |
| LR0Items.ClosureAddsStartItems | gramatica.py:283-290 | closure adds only dot-0 items of in-range productions |
| LR0Items.Enumerate | gramatica.py:277 | the worklist starts holding exactly the given items |
| LR0Items.AddStartItems | gramatica.py:286-290 | the dot-0 items of B's productions join the set; exactly the new ones are appended to the worklist |
| LR0Items.ListedValid | gramatica.py:286 | the dot-0 items of a symbol's indexed productions are in range |
| LR0Items.ClosureStep | gramatica.py:279-290 | one worklist step keeps the loop invariant and shrinks the measure |
| LR0Items.ClosureStart | gramatica.py:276-277 | the loop invariant holds initially |
| LR0Items.Closure | gramatica.py:272-292 | `fechamento` returns the least closed superset of its items |
| LR0Items.AdvanceAdd | gramatica.py:299-302 | one more item adds its advanced item exactly when it expects the symbol |
| LR0Items.Goto | gramatica.py:294-304 | `ir_para` returns the closure of the advanced items, and is empty iff no item expects the symbol |
| LR0Items.GotoEmpty | gramatica.py:298-304 | a closure of the advanced items is empty iff no item expects the symbol |
| SymbolOrder.PrecedesIrreflexive | gramatica.py:338 | the string order used by `sorted` is irreflexive |
| SymbolOrder.PrecedesTransitive | gramatica.py:338 | the string order is transitive |
| SymbolOrder.PrecedesTotal | gramatica.py:338 | the string order is total on distinct strings |
| SymbolOrder.Least | gramatica.py:338 | a non-empty set has a least symbol |
| SymbolOrder.SortSymbols | gramatica.py:338-344 | `sorted` returns the set's symbols in strictly increasing order |
| SymbolOrder.PreferredIn | gramatica.py:328-336 | the preferred symbols `x ( ) ,` that occur, and nothing else |
| SymbolOrder.AppendTerminals | gramatica.py:338-340 | appending terminals keeps the earlier list as a prefix |
| SymbolOrder.AppendNonterminals | gramatica.py:342-344 | appending non-terminals keeps the earlier list as a prefix |
| SymbolOrder.AppendTerminalsElements | gramatica.py:338-340 | the list gains exactly the sorted symbols that are terminals |
| SymbolOrder.AppendNonterminalsElements | gramatica.py:342-344 | the list gains exactly the sorted symbols that are non-terminals |
| SymbolOrder.OrderOfElements | gramatica.py:328-344 | the visit order holds exactly the state's symbols that are preferred or declared, and starts with the preferred ones |
| SymbolOrder.OrderSymbols | gramatica.py:328-344 | the three loops build `OrderOf` |
| LR0Automaton.CollectSymbols | gramatica.py:322-326 | the symbols right after a dot in the state |
| LR0Automaton.LabelExpected | gramatica.py:346-349 | a visited symbol is expected by some item of the state |
| LR0Automaton.LabelGoto | gramatica.py:346-349 | the goto on a visited symbol is in range and non-empty |
| LR0Automaton.KeysInPowerSet | gramatica.py:351-355 | the numbered states are subsets of the finite item set |
| LR0Automaton.NumberNewState | gramatica.py:351-353 | appending a new state numbers it `len(C)` and keeps the numbering a bijection |
| LR0Automaton.EdgesNewState | gramatica.py:351-354 | a new state with an empty row keeps every edge a goto edge |
| LR0Automaton.RecordEdge | gramatica.py:357 | recording an edge keeps every edge a goto edge and changes no earlier edge |
| LR0Automaton.NewStateKeeps | gramatica.py:351-355 | adding a state keeps every finished state's row complete |
| LR0Automaton.NewParent | gramatica.py:351-357 | the edge that discovers a new state makes it reachable from an earlier one |
| LR0Automaton.KnownTarget | gramatica.py:351-357 | an edge to a known state keeps the automaton invariants |
| LR0Automaton.NewTarget | gramatica.py:351-357 | an edge to a new state keeps the automaton invariants |
| LR0Automaton.AddTransition | gramatica.py:346-357 | one symbol of the state gets its edge, to a known or a newly appended state that is also queued |
| LR0Automaton.OrderIsLabels | gramatica.py:322-346 | the visit order holds exactly the symbols that get an edge |
| LR0Automaton.CompleteNext | gramatica.py:346-357 | a state all of whose symbols have edges is finished |
| LR0Automaton.MoreKeys | gramatica.py:318-357 | discovering a state shrinks the finite set of undiscovered subsets, so the `while fila` loop ends |
| LR0Automaton.ExpandState | gramatica.py:346-357 | processing a state gives it all its edges, appends new states to the queue, and keeps the rest |
| LR0Automaton.ExpandNext | gramatica.py:318-357 | one round of the worklist keeps the frontier invariant and makes progress |
| LR0Automaton.ParentsReach | gramatica.py:351-357 | every state is reachable from state 1 along recorded edges |
| LR0Automaton.NumberedDistinct | gramatica.py:351-353 | numbered states are pairwise distinct |
| LR0Automaton.EdgeTargets | gramatica.py:357 | every edge `n -x-> m` has `C[m-1] == ir_para(C[n-1], x)` |
| LR0Automaton.AllReachable | gramatica.py:318-357 | every state is reachable from state 1 |
| LR0Automaton.RowsAreLabels | gramatica.py:346-357 | a state has an edge on x exactly when x is a visited symbol with a non-empty goto |
| LR0Automaton.BuildAutomaton | gramatica.py:306-361 | state 1 is the closure of `(0,0)`; states are distinct, non-empty and numbered 1..len(C); rows are exactly the visited symbols; each edge leads to the goto state; every state is reachable |
| SlrTable.WriteCell | gramatica.py:388-411 | a write stores its action and leaves other cells alone; it appends exactly one conflict iff a checked action overwrites a different one |
| SlrTable.ApplyWrites | gramatica.py:380-419 | applying writes in order keeps the row's columns |
| SlrTable.ConflictsWellFormed | gramatica.py:388-411 | every recorded conflict is in this state, replaces a different action, has the kind the source assigns, and belongs to a logged write |
| SlrTable.LastOn | gramatica.py:380-419 | the position of the last write to a symbol, if any |
| SlrTable.LastWriteWins | gramatica.py:388-419 | each cell holds the action of the last write to it, or `None` |
| SlrTable.CellBeforeWrite | gramatica.py:388-411 | until the next write to the same cell, the cell keeps the earlier write's action |
| SlrTable.ConflictsGrow | gramatica.py:388-411 | conflicts recorded by a prefix of the writes stay recorded |
| SlrTable.DifferentWritesConflict | gramatica.py:388-419 | two different actions written to one cell, the later one checked, always record a conflict on that cell whose new action is the later one |
| SlrTable.ConflictAt | gramatica.py:388-419 | a checked write over a different stored action records a conflict on its cell with the written action |
| SlrTable.NewRow | gramatica.py:375-378 | a fresh row has exactly the terminals, eof and non-terminals as keys, all `None` |
| SlrTable.Record | gramatica.py:388-411 | one cell write extends the log and keeps row and conflicts equal to the log applied in order |
| SlrTable.ApplySnoc | gramatica.py:380-419 | one more write is one more `WriteCell` and joins the written set |
| SlrTable.ReduceWritesAdd | gramatica.py:402-411 | one more FOLLOW symbol adds one reduce |
| SlrTable.ReduceOn | gramatica.py:401-411 | the reduce loop raises iff some FOLLOW symbol has no column, and otherwise logs a reduce on each; it logs at most one write per column |
| SlrTable.ApplyItem | gramatica.py:380-411 | one item raises exactly when its reduce fails, with `MissingFollow` or a FOLLOW symbol without a column, and otherwise logs exactly its demanded writes, at most one per column |
| SlrTable.ActionPass | gramatica.py:380-411 | the first item loop raises iff some item fails, with that item's error, and otherwise logs exactly the first-loop writes, at most one per item and column |
| SlrTable.FirstWritesAdd | gramatica.py:380-411 | one more item adds its writes |
| SlrTable.FinalWritesAdd | gramatica.py:413-419 | one more item adds its accept write |
| SlrTable.FinalLog | gramatica.py:413-419 | the second loop writes at most once, an accept on eof, exactly when some item demands it |
| SlrTable.FinalLogAdd | gramatica.py:413-419 | one more item appends its accept, if any, to the second loop's writes |
| SlrTable.AcceptItem | gramatica.py:414-419 | the old log stays a prefix; `S' -> S . eof` appends one accept on eof, other items append nothing |
| SlrTable.AcceptPass | gramatica.py:413-419 | the second item loop keeps the first loop's log as a prefix and appends exactly the second loop's accept, if any |
| SlrTable.BuildRow | gramatica.py:370-419 | a row is built iff no item raises, and a failure carries the error of a failing item; the row is the log applied to a fresh row; the log is the first loop's demanded writes (at most one per item and column) followed by the second loop's accept |
| SlrTable.ConflictsStep | gramatica.py:368-419 | the conflicts of one more row follow those of the earlier rows |
| SlrTable.TableStep | gramatica.py:370-419 | adding row k+1 keeps the first k rows built |
| SlrTable.EarlierRowsKept | gramatica.py:370-373 | adding a row leaves the earlier rows untouched |
| SlrTable.BuildTable | gramatica.py:363-419 | it raises without states, transitions or FOLLOW; otherwise it succeeds iff no state raises, a failure carries the error of a failing item of some state, and row n is state n's built row (first loop, then second loop), with the conflicts of all rows in order |
| SlrTable.RowConflictsListed | gramatica.py:368-419 | every conflict of a row is a conflict of the table |
| SlrTable.ConflictsFromRows | gramatica.py:368-419 | every conflict of the table belongs to the row of its state |
| SlrTable.CellIsDemanded | gramatica.py:375-419 | a cell is `None` iff no write targets it, and otherwise holds a demanded action |
| SlrTable.NoConflictAgrees | gramatica.py:388-411 | without a conflict on a cell, all checked writes to it carry the same action |
| SlrTable.CellDeterministic | gramatica.py:363-419 | in a table with no conflict on a cell, the cell holds every action demanded for it, so that action is unique, and it is `None` iff nothing is demanded |
| SlrTable.AcceptWinsOnEof | gramatica.py:413-419 | in a built row of a state with `S' -> S . eof`, the eof cell holds accept, whatever the first loop wrote there |
| SlrTable.AcceptOverwritesConflict | gramatica.py:396-419 | when the first loop demands another action on eof in such a state, the row records a shift/reduce conflict on eof whose new action is accept |
| SlrTable.ConflictsAtMostWrites | gramatica.py:388-419 | each write records at most one conflict |
| SlrTable.RowConflictsBounded | gramatica.py:368-419 | a built row records at most one conflict per item and column, plus one for the second loop's accept |
| SlrTable.Recheck | gramatica.py:445-467 | the re-check raises on an empty table and otherwise always returns no conflicts |
| SlrAnalyzer.ContentLines | gramatica.py:89 | at most as many kept lines as input lines |
| SlrAnalyzer.ContentLinesAppend | gramatica.py:89 | the kept lines of two blocks of text are those of the first followed by those of the second, so the input order is kept |
| SlrAnalyzer.ContentLinesOne | gramatica.py:89 | one line is kept, stripped, exactly when it is neither blank nor a comment |
| SlrAnalyzer.ContentLinesSpec | gramatica.py:89 | the kept lines are exactly the stripped lines that are neither blank nor comments |
| SlrAnalyzer.LineResults | gramatica.py:124-159 | one result per line, as `SplitProductionLine` gives it |
| SlrAnalyzer.CollectFails | gramatica.py:124-159 | collecting fails iff some line fails, with the error of the first failing line |
| SlrAnalyzer.CollectStep | gramatica.py:124-157 | a line that succeeds appends its productions |
| SlrAnalyzer.CollectPrefixFails | gramatica.py:158-159 | a failing line stops the collection with its error |
| SlrAnalyzer.ReadProductions | gramatica.py:123-159 | the line loop collects every line's productions in order, or stops at the first line that raises |
| SlrAnalyzer.TableFor | gramatica.py:363-419 | the table phase on stored values succeeds iff the states are in range and no state raises, and then builds the table; out-of-range states give `ItemsOutOfRange`; otherwise a failure is the missing-input error or the error of a failing item of some state |
| SlrAnalyzer.Analyzer.constructor | gramatica.py:47-53 | no phase has a result yet |
| SlrAnalyzer.Analyzer.AnalyzeGrammar | gramatica.py:88-171 | it raises on too few lines, no non-terminals, a bad line or no productions, leaving the grammar; otherwise it stores the grammar and raises exactly with the validation issues |
| SlrAnalyzer.Analyzer.AugmentGrammar | gramatica.py:173-184 | it raises without a grammar, and otherwise stores the augmented grammar |
| SlrAnalyzer.Analyzer.ComputeFirstSets | gramatica.py:186-223 | it raises without a grammar, and otherwise stores a map that satisfies the FIRST rules and lies below every other such map |
| SlrAnalyzer.Analyzer.ComputeFollowSets | gramatica.py:225-270 | it raises without grammar or FIRST, and otherwise stores a map that satisfies the FOLLOW rules and lies below every other such map, with eof in FOLLOW of the start |
| SlrAnalyzer.Analyzer.BuildStates | gramatica.py:306-361 | it raises without a grammar, and otherwise stores the canonical collection and transitions with the properties of `BuildAutomaton` |
| SlrAnalyzer.Analyzer.BuildParseTable | gramatica.py:363-419 | it succeeds exactly when states, transitions, FOLLOW and the grammar are stored, every state is in range and no item fails, and then stores the table `BuildTable` builds; past the missing-input check a failure is `ItemsOutOfRange` or the error of a failing item |
| SlrAnalyzer.Analyzer.RecheckTable | gramatica.py:445-467 | it raises without a table, and otherwise finds no conflict |
| SlrAnalyzer.Analyzer.Generate | gramatica.py:543-559 | a true answer means every phase ran and the stored table was built from the stored automaton and FOLLOW sets without a conflict |
| FollowAliasing.ResetAsWritten | gramatica.py:258-267 | `trailer = first[sim]` shares the FIRST set when there is one, else is `{sim}`; either way it holds the elements the copying reset gives |
| FollowAliasing.ExtendAsWritten | gramatica.py:255 | the in-place union into `trailer` adds `extra` to what the trailer holds; a shared FIRST set grows in place, and FIRST sets only grow |
| FollowAliasing.ScanFollowAsWritten | gramatica.py:245-268 | the sweep as written keeps every FOLLOW key |
| FollowAliasing.FollowStepAsWritten | gramatica.py:243-268 | one production's sweep as written, starting from a copy of FOLLOW of the left side, keeps every FOLLOW key |
| FollowAliasing.FollowPassAsWritten | gramatica.py:242-268 | one pass as written keeps every FOLLOW key |
| FollowAliasing.ScanFirstGrowsAsWritten | gramatica.py:245-268 | the sweep as written only adds to FIRST sets |
| FollowAliasing.PassFirstGrowsAsWritten | gramatica.py:242-268 | a pass as written only adds to FIRST sets |
| FollowAliasing.ScanAgreesWhenFirstKept | gramatica.py:245-268 | a sweep as written that leaves FIRST unchanged gives the FOLLOW sets of the copying sweep |
| FollowAliasing.PassAgreesWhenFirstKept | gramatica.py:242-268 | a pass as written that leaves FIRST unchanged gives the FOLLOW sets of `FollowPass` |
| FollowAliasing.PassOfSteps | gramatica.py:242-268 | a pass as written ends in the state reached by its productions' sweeps one after another |
| FollowAliasing.ExampleFirstIsLeast | gramatica.py:186-223 | for `S -> B C`, `B -> b`, `B -> vazio`, `C -> c` augmented with `S' -> S $`, the FIRST sets with FIRST(B) = {b, epsilon} and FIRST(C) = {c} are the least map satisfying the FIRST rules |
| FollowAliasing.ExampleFollowIsLeast | gramatica.py:225-270 | for that grammar, the FOLLOW sets with FOLLOW(B) = {c} are the least map satisfying the FOLLOW rules, so `ComputeFollow` gives them |
| FollowAliasing.PassStart | gramatica.py:243-268 | as written, `S' -> S $` adds `$` to FOLLOW(S) and changes nothing else |
| FollowAliasing.PassMiddle | gramatica.py:243-268 | as written, `S -> B C` with nullable `B` adds FOLLOW(S) to FOLLOW(C), adds FIRST(C) to FOLLOW(B), and adds `b` to FIRST(C) itself through the shared trailer |
| FollowAliasing.AliasedFollowExample | gramatica.py:239-268 | as written on that grammar, the first pass grows FIRST(C) to {b, c}, the second puts `b` into FOLLOW(B), and the third changes nothing, so the loop stops with FOLLOW(B) = {b, c} instead of {c} |
## Left out

- Header parsing (gramatica.py:91-121) uses `eval` and a regular expression. The terminals, non-terminals, start symbol and eof are parameters of `AnalyzeGrammar`. Only the four-line minimum and the empty non-terminal list are modelled as errors.
- The hand-written overrides for states 3, 5, 6, 7 and 9 (gramatica.py:421-440) fit one example grammar and are not modelled. The table is the value just before line 421.
- Printing is not modelled: `__str__`, `imprimir_estados`, `imprimir_tabela`, `_imprimir_erro_slr`, `main` and the command line.
- Error messages are not modelled. Each error is a datatype value that carries its data (`AnalyzerError`, `LineError`, `TableError`, `Issue`).
- Actions and conflict kinds are datatypes (`Shift(n)`, `Reduce(p)`, …) rather than the strings `s<n>`, `r<p>`, `g<n>`, `a`. Tests of a string's first letter become constructor tests.
- Iteration order of Python sets is not fixed, so the table builder picks items in an arbitrary order within each loop. It records that order in a ghost log. No contract depends on which item goes first within a loop; the second loop's writes always follow the first loop's.
- `sorted()` on strings is modelled as lexicographic order by code point (`Precedes`).
- FollowSets.ComputeFollow: computes the FOLLOW sets the algorithm intends, with `trailer` always a copy. The source binds `trailer` to a FIRST set object at lines 258 and 265, and a later `trailer |= …` at line 255 grows that FIRST set in place. On the grammar of the finding below, the source ends with FIRST(C) = {b, c} and FOLLOW(B) = {b, c}, where the model has FIRST(C) = {c} and FOLLOW(B) = {c}. The module `FollowAliasing` models the sweep as written.
- SlrAnalyzer.Analyzer.ComputeFollowSets: stores the FOLLOW map of `FollowSets.ComputeFollow` and leaves the stored FIRST sets unchanged. In the source, `calcular_conjuntos_follow` grows `self.conjuntos_first` in place through the shared trailer (lines 255, 258 and 265) and stores the FOLLOW map of that aliased sweep. This happens when a right side holds `A x` where `x` has a FIRST entry and is not a tracked nullable symbol, `A` is a tracked nullable symbol, and FIRST(A) holds a symbol other than epsilon that FIRST(x) lacks. On the grammar of the finding below, the source's phase leaves FIRST(C) = {b, c} and FOLLOW(B) = {b, c}, where this method leaves FIRST(C) = {c} and FOLLOW(B) = {c}. The pair (FIRST, FOLLOW) that the source's phase leaves behind is modelled by `FollowAliasing.FollowPassAsWritten`, pass by pass.
- SlrAnalyzer.Analyzer.Generate: can answer true where `gerar_analisador` returns False because of that aliasing. On the grammar of the finding below, the start state holds both `B -> . b` and the completed `B -> .`. With the source's FOLLOW(B) = {b, c}, its table records a shift/reduce conflict on `b` in that state (lines 389-391 and 404-409), and `gerar_analisador` returns False (lines 552-554). With FOLLOW(B) = {c} the model writes no reduce on `b`. This consequence is argued from the table rules, not proved for that grammar.
- FollowSets.ComputeFollow: FOLLOW is proved epsilon-free only under `EpsilonFreeInputs`: eof and every right-side symbol differ from the empty string, and the FIRST map has the keys and the terminal entries `{t}` that `calcular_conjuntos_first` gives it. When eof or a right-side symbol is the empty string, the source does put it into FOLLOW sets.
- Reading a missing key of a `defaultdict` inserts it, in the index and at line 286. The model reads with a default and does not insert.
- Python changes the `Gramatica` object in place in `aumentar_gramatica`. The model stores a new grammar value in the analyzer's field, so aliasing by other holders of the object is not modelled.
- LR0Automaton.BuildAutomaton requires at least one production. The source raises `IndexError` on item `(0, 0)` otherwise, and `analisar_gramatica` already refuses such a grammar.
- SlrTable.BuildTable and SlrTable.BuildRow require every item's production index to exist (`TableItem`). The source raises `IndexError` at line 381 otherwise, and `SlrAnalyzer.TableFor` checks that first and answers `ItemsOutOfRange`. As in the source, a dot at or past the end of the right side makes a completed item that is reduced.
- Augmenting the grammar again after the automaton was built shifts every production number by one. The source then builds the table from mismatched productions without raising, since the list only grows. The model does the same: `ItemsOutOfRange` arises only where the source raises `IndexError`.
- LR0Items.Goto states its result as `GotoOf`, the closure of the advanced items. That it is the least closed set comes from `ClosureOfIsClosure`.
- SlrAnalyzer.Analyzer.Generate states only what a true answer guarantees. It does not say when the answer is true, because that would restate every phase.
- The printing and exception swallowing of `gerar_analisador` (gramatica.py:543-559) are not modelled. An exception becomes a false answer.

## Findings

| source | as written | input that shows it | evidently intended | confidence | as-written member | corrected member |
|---|---|---|---|---|---|---|
| gramatica.py:252-268 | `trailer = self.conjuntos_first[sim]` makes the trailer the FIRST set object itself, so the later in-place union into `trailer` (line 255) grows that FIRST set, and FOLLOW sets computed afterwards take the extra symbols | terminals b, c; productions `S -> B C`, `B -> b`, `B -> vazio`, `C -> c`, augmented with `S' -> S $`: FIRST(C) becomes {b, c} and FOLLOW(B) becomes {b, c} | the trailer is a copy (`set(...)`), FIRST is left unchanged and FOLLOW(B) = {c}, the least solution of the FOLLOW rules | high; not executed | FollowAliasing.AliasedFollowExample | FollowSets.ComputeFollow |

# The lemon parser generator, its parsers, and the repository's stream buffers

This project models the LEMON LALR(1) parser generator (`calc/tools/lemon.c`) and the table-driven
parser that it emits (`calc/tools/lempar.c`), and proves that the one makes the other correct. Two
smaller cores are modelled beside it: the sliding input windows of the lexers
(`re2c/scanner/scanner.c`, `tokenizer/scanner/input.c`) and picocom's output queue
(`myterm/picocom/picocom.c`).

## What is proved

The generator is followed from a grammar to the numbers in its tables, step by step and in its own
order, and each step is proved against a definition that does not mention the step:

* **Grammar fixpoints.** `FindFirstSets` computes exactly the nullable nonterminals and exactly the
  terminals that can begin a derived form; both loops terminate.
* **Automaton.** `FindStates`, `getstate` and `buildshifts` terminate with exactly one state for every
  reachable kernel, in order of creation; the result is the LR(0) automaton.
* **Lookaheads.** After `FindLinks` and `FindFollowSets` the follow-set of a configuration holds exactly the
  canonical LR(1) lookaheads of that configuration, united over all paths to its state.
* **Conflicts.** Pairwise resolution fails an assertion exactly in the cases named below. Otherwise it leaves exactly
  one live action for each symbol that had any, and which one depends on the precedences alone: the first candidate if
  it has none, otherwise the one of highest precedence, with associativity and the order of the rules between equals
  (`Precedence.WinnerBest`). An ERROR stands beside it exactly where the shift lost in a tie, and the conflicts counted
  are exactly the reductions that lose without a precedence to decide it.
* **Compression.** Default reductions, SHIFTREDUCE conversion and the bypass of code-free unit rules
  preserve the meaning of every cell, and the bypass gives the same stack as the chain of reductions.
* **Packing.** Every row stays readable at its offset after all later insertions, exactly when each
  search found a place at which nothing was visible; the table is the outcome of exactly these searches.
* **Whole runs.** For every grammar within the assumptions, every token sequence, valid or not, every stack
  depth and every number of iterations, the generated parser fails none of the assertions of `lempar.c` and never pops
  below the bottom of its stack; whatever it accepts is a sentence; and when no state had two candidates for one
  token, it accepts exactly the sentences of the grammar (`Generate.GenerateParser`). Then it also is done with every
  token after finitely many iterations, even with one that cannot come next: default reductions do not go on for ever
  (`Termination.DriverEnds`). No reduction is by a rule that was optimized out (`UsedRules.NeverOptimizedOut`).

* **Error reports.** In every run over any tables, `yyerrcnt` counts three shifted tokens down after an error, and an
  error is reported exactly when that countdown is over (`ErrorReports.ReportedExactly`).

The proof of the item on whole runs has two halves. `Machine` proves safety, soundness and completeness for an LR
machine over the uncompressed automaton, for *any* way of choosing actions that the automaton allows.
`Simulation` then shows that one iteration of the real driver, on packed and compressed tables with
renumbered states and encoded actions, is one or more steps of that machine.

Where the code falls short of what it is meant to do, the exact condition is proved:

* `assert( stateno <= YY_SHIFT_COUNT )` in the parser holds for all states exactly when the last
  numbered state has token actions, because the offsets of trailing states without any are not
  written (`Report.ShiftAssertions`). `ShiftCount.WitnessCrash` gives a grammar and a sentence: whatever states
  and tables the generator makes of the grammar, the parser fails this assertion on the sentence.
* The third pass of `CompressTables` comes to its end exactly when in no state the bypasses of code-free unit rules
  form a cycle; otherwise the first goto whose chain does not end decides whether `assert( ap2!=0 )` fails or the
  loop runs on for ever (`Compress.BypassState`, `Compress.VerdictDone`). `UnitCycles.PassAsserts` and
  `UnitCycles.PassLoops` give a grammar for each. It always ends when the code-free unit rules of the grammar itself
  form no cycle (`Compression.AcyclicNoCycles`).
* `resolve_conflict` fails an assertion exactly when a shift meets a reduction of equal precedence without being
  left- or right-associative, and either its symbol is not declared `%nonassoc` or another reduction by a later rule is
  left on the same symbol (`ActionLists.FindActions`, with `ActionLists.Overrun` as the condition).
  `TieOverrun.TieAborts` gives a grammar.
* When no assertion fails, two actions with a code are on the same symbol after conflict resolution exactly when such a
  tie was fought (`Cells.OneCodeEach`), and the reduction that tied is the one that is left (`ActionLists.TieWins`).
* nAction passes the allocation of the packed table exactly when the row inserted last is a token row that is padded
  beyond it (`Filling.FillPastAllocation`); then the table is read past its end. `PackingLimit.LonePast` gives a row.
* `msort` returns a permutation exactly for lists of fewer than 2^30 elements (`MergeSort.Msort`).
* A row whose search in the packed table runs off its bound is readable exactly when nothing was visible
  at the offset it fell on (`Acttab.InsertsMeans`, and for the whole table `Filling.PackingMeans`).
  `PackingLimit.LastLost` gives twenty rows of which the last one cannot be read.
* A parenthesis in an `%if` condition that is never closed is not reported: the check for it stands in a loop that ends
  before it. It counts as a false term (`Conditions.Unclosed`, `Conditions.UnclosedTerm`). An `%endif` that ends the
  file without a newline closes nothing (`Documents.EndifAtEnd`).
* picocom's `igncr` and `ignlf` mappings fail the assertion in `do_map` exactly on the bytes they are
  meant to drop (`TtyQueue.IgnoredIsFatal`).

## Assumptions on grammars

`Grammar.Valid` and `Grammar.StartIsolated` are what the grammar reader and `FindStates` report errors
for. `TieFree` says that the analysis meets no tie: no shift loses to a reduction of equal precedence without an
associativity. It holds whenever there is no `%nonassoc` (`Generate.NonassocTies`). `SmallEnough` keeps lists below
the bound of `msort`. `RulesNumbered` is what `Report.NumberedByMain` proves of the numbering in `main`. Cycles of
code-free unit rules are not excluded: whether they keep the generator from coming to its end is one of its outcomes,
and `Generate.GenerateParser` says exactly when.

## Files

`Grammars` (derivations), `FirstSets`, `MergeSort`, `Automata`, `ConfigLists` (closure), `StateTables` and
`FindStates` (states and propagation links), `FollowSets`, `Lalr` and `Lookaheads` (LR(1) items and
lookaheads), `Actions`, `FindActions` and `Precedence` (conflicts), `Compress`, `CompressTables`, `Decisions` and
`Cells` (compression), `RuleNumbers`, `Codes`, `ResortStates`, `Acttab`, `FillTable` and `ReportTable` (tables),
`Driver` (the parser), `ErrorReports` (`yyerrcnt`), `Machine`, `Simulation`, `ParserRuns` and `Generate` (the
theorems), `Samples`, `ShiftCount`, `UnitCycles`, `TieOverrun` and `PackingLimit` (the inputs on which the code falls
short), `TokenEnds` and `UsedRules` (termination, and the rules that are reduced by), `Options`, `HashTable`,
`Conditions`, `Preprocess` and `Documents` (`%if` lines), `Scanner`, `TokenizerInput`, `TtyQueue`.
`Seals` is a way of writing a hypothesis so that the solver unfolds it only where a proof asks for it.

## Model

| member | source | states |
|---|---|---|
| FirstSets.FindLambdas | calc/tools/lemon.c:845-867 | lambda holds exactly for the nonterminals that derive the empty string; the loop ends |
| FirstSets.FindFirstSets | calc/tools/lemon.c:839-895 | terminal t is in firstset(A) exactly when A derives a form that begins with t, self-recursive rules included; both loops end |
| FirstSets.AddRuleFirsts | calc/tools/lemon.c:873-891 | the left-hand side gains exactly the firsts of the right-hand side, up to the first symbol that is not lambda; all else stays, and progress is reported exactly when something was added |
| FirstSets.WithFirstsSound | calc/tools/lemon.c:873-891 | that keeps the sets sound and shrinks what is missing, and when it adds nothing the rule is closed |
| FirstSets.FirstOfExact | calc/tools/lemon.c:869-893 | the firsts computed for a form are exactly the terminals it can begin with |
| MergeSort.Merge | calc/tools/lemon.c:1842-1878 | the merged list, which MergedSorted and MergedElements show sorted and complete |
| MergeSort.MergedElements | calc/tools/lemon.c:1842-1878 | merging keeps exactly the elements of both lists |
| MergeSort.MergedSorted | calc/tools/lemon.c:1842-1878 | merging sorted lists gives a sorted list |
| MergeSort.CarriedPool | calc/tools/lemon.c:1905-1914 | a carry through the bins conserves all elements unless the last bin has to be overwritten |
| MergeSort.CarriedCounter | calc/tools/lemon.c:1905-1914 | bin i stays empty or a sorted list of 2^i elements, as in a binary counter |
| MergeSort.Msort | calc/tools/lemon.c:1894-1918 | the result is sorted, and a permutation of the input if and only if it has fewer than 2^30 elements |
| Automata.StrictlySortedUnique | calc/tools/lemon.c:5592-5605 | comparing sorted bases element by element compares them as sets |
| Automata.NeverShiftToZero | calc/tools/lemon.c:964-1072 | state 0 is never the target of a shift |
| ConfigLists.ScanRest | calc/tools/lemon.c:1421-1437 | the scan behind the predicted symbol collects exactly the firsts of the rest and says whether all of it is lambda |
| ConfigLists.ConfiglistClosure | calc/tools/lemon.c:1400-1442 | exactly the configurations reachable by closure steps, with exactly the follow-set seeds and propagation links the grammar calls for; the loop ends |
| StateTables.SortConfigs | calc/tools/lemon.c:1445-1460 | a strictly sorted list of the same configurations |
| StateSearch.Generator.FindStates | calc/tools/lemon.c:902-958 | the table is the LR(0) automaton, every state reachable and no two with the same kernel, with exact seeds and links |
| StateSearch.Generator.GetState | calc/tools/lemon.c:964-1003 | returns the one state with the given kernel; new states come after all old ones and are finished |
| StateSearch.Generator.NewState | calc/tools/lemon.c:988-1000 | a new state has the next number, its basis, its closure, and shrinks the set of kernels still possible |
| StateSearch.Generator.BuildShifts | calc/tools/lemon.c:1024-1072 | the state gets a shift for exactly the symbols that can follow the dot, to states with the right kernels; terminates |
| StateSearch.Generator.CollectBasis | calc/tools/lemon.c:1044-1055 | the kernel over one symbol, with the configurations it came from marked COMPLETE |
| StateSearch.BackLinks | calc/tools/lemon.c:1053-1054 | each configuration of the target gets a back link to the one it advanced from |
| Lookaheads.FindLinks | calc/tools/lemon.c:1077-1105 | the forward links are exactly the closure links and the shift edges between configurations |
| FollowSets.FindFollowSets | calc/tools/lemon.c:1112-1144 | every configuration holds exactly what some seed can reach over the links; the measure is the number of missing pairs |
| FollowSets.PropagatedLeast | calc/tools/lemon.c:1112-1144 | that family is the least one above the seeds and closed under the links |
| FollowSets.Spill | calc/tools/lemon.c:1131-1141 | one configuration is spread to all its targets; every COMPLETE configuration stays included in all its targets |
| Lalr.LookaheadsComplete | calc/tools/lemon.c:1400-1442 | the lookahead of every canonical LR(1) item along any path is in the follow-set of its configuration in the state reached |
| Lookaheads.FollowsClosed | calc/tools/lemon.c:1112-1144 | the propagated sets are closed under closure steps and shifts |
| Lookaheads.LookaheadsExact | calc/tools/lemon.c:1077-1144 | a terminal is in a follow-set if and only if it is a canonical LR(1) lookahead over some path to the state; the direction from left to right for productive grammars |
| Lookaheads.StartFollows | calc/tools/lemon.c:948-953 | rules of the start symbol have no lookahead but $ |
| Lookaheads.KernelUnique | calc/tools/lemon.c:964-1003 | a kernel determines its state |
| Lookaheads.BuildLookaheads | calc/tools/lemon.c:1739-1753 | the four steps together give the automaton with closed follow-sets |
| Actions.ActioncmpOrder | calc/tools/lemon.c:514-530 | the comparison of actions is a total preorder, as sorting needs |
| Actions.ResolveOne | calc/tools/lemon.c:1239-1299 | one fight leaves exactly one of two live actions, unchanged; the loser becomes ERROR exactly in a tie |
| Actions.ResolveRule | calc/tools/lemon.c:1239-1299 | a reduction takes the place of an earlier shift or reduction exactly if both have a precedence and its own is higher, or equal to that of a shift that is not right-associative; the loser is SRCONFLICT or RRCONFLICT without a precedence on both sides or between reductions of equal precedence, SH_RESOLVED, RD_RESOLVED or ERROR otherwise; only the first two are counted |
| Actions.ResolveGroup | calc/tools/lemon.c:1202-1208 | of a group with one lookahead an assertion fails exactly when a champion meets a tie and is not declared nonassociative or has another action to fight; otherwise each action gets the type that the fights give it: only the champion stays live, and nothing else changes; what is added to nconflict is the number of actions that have become conflicts |
| Actions.ErrorFates | calc/tools/lemon.c:1265-1267 | in the fights some action of a group becomes ERROR exactly when a champion on the way meets a tie |
| Actions.ErrorFirst | calc/tools/lemon.c:1265-1267 | only the first action of a group, its shift, can become ERROR |
| Actions.ResolveSorted | calc/tools/lemon.c:1196-1209 | over a whole sorted list an assertion fails exactly when it does on some lookahead; otherwise each lookahead keeps exactly one live action, every action gets the type that the fights on its lookahead give it, and nconflict is the number of SSCONFLICT, SRCONFLICT and RRCONFLICT actions |
| ActionLists.BuildList | calc/tools/lemon.c:1150-1194 | the list holds exactly the candidate actions of the state, each once |
| ActionLists.ResolveState | calc/tools/lemon.c:1150-1209 | an assertion fails exactly when a tie is met on a symbol that is not declared nonassociative or has a later reduction left; otherwise there is exactly one live action for every symbol that had a candidate, the winner, and every candidate is in the list once with the type that the precedences leave it; nconflict is the number of conflicts among them |
| ActionLists.ListStops | calc/tools/lemon.c:1264-1295 | the fights over the sorted list of a state fail an assertion if and only if the candidates of the state meet that condition |
| ActionLists.ChampWinner | calc/tools/lemon.c:1196-1209 | the champion of the sorted list is the winner when the shift or acceptance is challenged by the reductions in the order of their rules |
| ActionLists.ResolvedCleanly | calc/tools/lemon.c:1265-1267 | no action of a state is an ERROR if and only if no tie was fought there |
| ActionLists.TieWins | calc/tools/lemon.c:1265-1267 | when no assertion fails, the reduction met in a tie is the winner |
| ActionLists.FindActions | calc/tools/lemon.c:1150-1209 | the same for all states: an assertion fails if and only if it does in some state; otherwise the outcome of every candidate, and nconflict as the number of conflicts in all lists |
| Precedence.WinnerBest | calc/tools/lemon.c:1239-1299 | the winner on a symbol in terms of the precedences alone, for any number of candidates: the first candidate if it has none, otherwise the one that outranks all that have one, by precedence, then by associativity between shift and reduction, then by the order of the rules |
| Precedence.BestUnique | calc/tools/lemon.c:1239-1299 | no two candidates meet that condition |
| Precedence.LiveIsBest | calc/tools/lemon.c:1196-1299 | a shift or reduction is live after FindActions if and only if it is that candidate |
| Precedence.ShiftOrReduce | calc/tools/lemon.c:1253-1269 | of one shift and one reduction: without precedence the shift is left beside SRCONFLICT; a higher precedence of the symbol or RIGHT leaves the shift beside RD_RESOLVED; a lower one or LEFT leaves the reduction beside SH_RESOLVED; otherwise the reduction beside ERROR |
| Precedence.ReduceOrReduce | calc/tools/lemon.c:1270-1282 | of two reductions the higher precedence is left beside RD_RESOLVED; without precedence or between equals the earlier rule beside RRCONFLICT |
| Precedence.ConflictsCounted | calc/tools/lemon.c:1202-1208 | the number of conflicts of a state is the number of reductions that lose to the winner before them although one of the two has no precedence or both are reductions of equal precedence |
| TieOverrun.TieAborts | calc/tools/lemon.c:1282-1293 | for any analysis of a concrete grammar, an assertion of resolve_conflict fails |
| TieOverrun.TiedAccepted | calc/tools/lemon.c:1739-1757 | that grammar meets all that is demanded before conflict resolution |
| Compress.FindBest | calc/tools/lemon.c:5003-5022 | the first rule that no other reducible rule outnumbers and that is not a start rule, or none |
| Compress.DefaultState | calc/tools/lemon.c:4998-5049 | its reductions disappear into one action on {default}, all else stays; auto-reduce exactly when nothing else is possible |
| Compress.ConvertState | calc/tools/lemon.c:5056-5067 | exactly the shifts to auto-reduce states become SHIFTREDUCE by the state's rule |
| Compress.BypassState | calc/tools/lemon.c:5075-5097 | the pass over one state ends exactly when no goto is on a cycle of bypasses, and then every goto ends where its chain of code-free unit rules ends; otherwise the first goto whose chain does not end decides: on the cycle the assertion fails, before it the loop never ends |
| Compress.VerdictDone | calc/tools/lemon.c:5075-5097 | all chains of a state end if and only if its bypasses form no cycle |
| Compress.CycleNeverEnds | calc/tools/lemon.c:5075-5097 | from a cycle no chain ends, and one turn takes at most nsymbol bypasses |
| Compression.ChainReady | calc/tools/lemon.c:5075-5097 | in every state of the automaton a bypass leads to another goto of the same state |
| Compression.CompressTables | calc/tools/lemon.c:4988-5098 | all three passes over all states: they come to their end exactly when no state has a cycle, and the first state that has one decides the outcome |
| Compression.AcyclicNoCycles | calc/tools/lemon.c:5075-5097 | whenever the code-free unit rules of the grammar form no cycle, no state has one, so the third pass ends |
| Compression.RankedAcyclic | calc/tools/lemon.c:5075-5097 | a rank that decreases along code-free unit rules shows that they form no cycle |
| UnitCycles.PassAsserts | calc/tools/lemon.c:5090-5093 | for every automaton of a concrete grammar, the third pass fails its assertion |
| UnitCycles.PassLoops | calc/tools/lemon.c:5075-5097 | with the nonterminals numbered in another order, it never ends |
| UnitCycles.CyclicAccepted | calc/tools/lemon.c:1739-1770 | the generator accepts these grammars |
| Decisions.DecAllowed | calc/tools/lemon.c:4988-5049 | a cell without an action becomes an error or a reduction whose rule is complete in the state, never a shift and never an accept |
| Decisions.DecFaithful | calc/tools/lemon.c:4988-5049 | without conflicts, defaults change no cell that had an action |
| Decisions.AutoStates | calc/tools/lemon.c:5042-5049 | an auto-reduce state decides on its one rule whatever the token, has no goto, and its rule is not empty |
| Cells.CodedSound | calc/tools/lemon.c:4988-5098 | every coded action of a compressed list means the decision of its cell before compression |
| Cells.TokenKept | calc/tools/lemon.c:5024-5038 | a terminal without an entry had the default reduction, or no action at all |
| Cells.GotoKept | calc/tools/lemon.c:5056-5097 | no goto is lost |
| Cells.DefaultKept | calc/tools/lemon.c:5024-5038 | a {default} entry exists exactly when a rule was made the default |
| Cells.CodedOnce | calc/tools/lemon.c:4988-5098 | no symbol has two coded actions |
| Cells.OneCodeEach | calc/tools/lemon.c:1265-1267 | when conflict resolution fails no assertion, no symbol has two actions with a code if and only if no tie was fought |
| RuleNumbers.AssignNumbers | calc/tools/lemon.c:1719-1725 | rules with code get the first numbers, the others the rest, each class in order |
| RuleNumbers.NumbersDiffer | calc/tools/lemon.c:1719-1725 | the numbers are a permutation, and exactly the rules with code are below nruleWithAction |
| RuleNumbers.NumbersOrdered | calc/tools/lemon.c:1719-1725 | one rule has a lower number than another exactly if it alone has code, or if neither or both have and it comes first |
| Report.NumberedByMain | calc/tools/lemon.c:1719-1725 | rules numbered in this way are numbered as the tables need it |
| Codes.CodesRoundTrip | calc/tools/lemon.c:3568-3592 | the driver's comparisons recover the kind and operand of every encoded action, equal codes mean equal actions, and the rebasing of a shift-reduce gives the reduction by the same rule |
| Generate.CodesReadBack | calc/tools/lemon.c:3568-3592 | the same for any two coded actions of the compressed lists of any generated result |
| Report.DriverReads | calc/tools/lempar.c:879-938 | one iteration of the driver does with a code exactly what the code means; shifting puts the rebased code on the stack |
| Resort.CountActions | calc/tools/lemon.c:5134-5153 | the numbers of token and nonterminal actions, and the default |
| Resort.ResortStates | calc/tools/lemon.c:5128-5163 | a renumbering that keeps state 0 first and puts every other state before those with fewer nonterminal actions, or as many and fewer token actions, or as many of both and a lower old number; only auto-reduce states lie beyond nxstate |
| Resort.KeptNumber | calc/tools/lemon.c:5154-5162 | every state that is not an auto-reduce state has a number below nxstate |
| Generate.ShiftsNumbered | calc/tools/lemon.c:5154-5162 | every SHIFT that is left in the compressed lists leads to a state with a number below nxstate |
| Acttab.WrittenHolds | calc/tools/lemon.c:772-776 | a row written into empty slots is readable at its offset if and only if nothing was visible there |
| Acttab.WrittenKeeps | calc/tools/lemon.c:772-776 | every other readable row stays readable |
| Acttab.MatchHolds | calc/tools/lemon.c:711-735 | the count in the duplicate search suffices: a matching row is readable at the offset found |
| Acttab.FindDuplicate | calc/tools/lemon.c:704-735 | the last offset at which the row is already stored with nothing else visible, or none exists in the range |
| Acttab.FindHole | calc/tools/lemon.c:737-763 | the first offset in the range at which the row fits, or no offset in the range fits; all reads in bounds |
| Acttab.ChosenPlaceable | calc/tools/lemon.c:703-763 | wherever the searches end, the row is already there or its slots are empty, inside the allocation; they end in a break by index nAction + mnLookahead + 1 whenever mnLookahead + mxLookahead <= nsymbol |
| Acttab.StaysUnreadable | calc/tools/lemon.c:772-776 | a row that is not readable never becomes readable by a later insertion |
| Acttab.ActionTable.Collect | calc/tools/lemon.c:639-663 | one more entry, with the smallest and largest lookahead kept |
| Acttab.ActionTable.Grow | calc/tools/lemon.c:684-702 | room for nsymbol + 1 more slots, old slots unchanged, new ones empty |
| Acttab.ActionTable.Insert | calc/tools/lemon.c:680-783 | the searches choose the last duplicate, else the first hole, else the end of the range; the row is written there, and nAction is raised past it and, for tokens, past offset plus every terminal |
| Acttab.InsertsUnique | calc/tools/lemon.c:680-783 | the outcome is determined by the table and the row |
| Acttab.InsertsMeans | calc/tools/lemon.c:680-783 | no entry of an earlier row is lost; all rows are readable afterwards if and only if all were before and the search ended in a break or nothing was visible at the offset; with makeItSafe the offset is not negative and offset plus any terminal is below nAction |
| Acttab.PastAllocation | calc/tools/lemon.c:776-793 | nAction passes the allocation after an insertion exactly when a token row is padded beyond it |
| Acttab.ActionTable.ActionSize | calc/tools/lemon.c:789-793 | the table up to its last filled slot |
| Filling.Fill | calc/tools/lemon.c:4514-4572 | exactly the nonempty rows of the numbered states are inserted, largest first and otherwise in their original order, each as acttab_insert does; the table is the one after the last insertion, and each state has the offset of its row |
| Filling.PackingMeans | calc/tools/lemon.c:4534-4572 | after any sequence of insertions every entry is still in its slot and inside the table, token rows safely so, and all rows are readable if and only if every search ended in a break or at an offset where nothing was visible |
| Filling.NarrowFound | calc/tools/lemon.c:684-763 | when in every row the smallest and largest lookahead add up to at most nsymbol, every search of the whole filling ends in a break |
| Filling.FillPastAllocation | calc/tools/lemon.c:776-793 | the same for the last row of the whole filling, which decides whether the table is read past its allocation |
| PackingLimit.LastLost | calc/tools/lemon.c:737-776 | after nineteen rows of one entry, a search runs to its bound, something is visible at the offset that is left, and the row written there cannot be read |
| PackingLimit.RowInserted | calc/tools/lemon.c:680-783 | the nineteen rows go into the empty table one after the other |
| PackingLimit.LonePast | calc/tools/lemon.c:776-793 | with thirty terminals, a first row on the last terminal alone is padded past the allocation |
| Report.EmitLookahead | calc/tools/lemon.c:4637-4669 | lookaheads padded so that nactiontab plus any token is a valid index |
| Report.EmitOffsets | calc/tools/lemon.c:4671-4720 | the offsets up to the last state that has one |
| Report.EmitRules | calc/tools/lemon.c:4851-4868 | under the number of each rule, its left-hand side and the length of its right-hand side |
| Report.ReportTable | calc/tools/lemon.c:4288-4742 | the tables written out are those of the packed table that the insertions produced |
| Report.PackedServes | calc/tools/lemon.c:4514-4742 | when every search found a clear place, each row is readable at the offset of its state |
| Report.ServesFound | calc/tools/lemon.c:4514-4742 | each row is readable at the offset of its state only if every search found a clear place, since no half of a state is inserted twice |
| Report.TokenHit | calc/tools/lemon.c:4618-4695 | a token with an entry in the row of its state finds its code; no index assertion fails |
| Report.TokenMiss | calc/tools/lemon.c:4618-4695 | any other token finds the default of the state, also when the state has no row at all |
| Report.GotoHit | calc/tools/lemon.c:4697-4719 | a nonterminal with an entry finds its code |
| Report.ShiftAssertions | calc/tools/lemon.c:4674-4695 | the index assertions of the lookup hold for all states and tokens if and only if the last numbered state has token actions |
| ShiftCount.WitnessCrash | calc/tools/lemon.c:4674-4695 | for every result that the generator can make of a concrete grammar, the last numbered state has no token actions and the parser fails an assertion on a sentence of the grammar |
| ShiftCount.WitnessAccepted | calc/tools/lemon.c:1739-1770 | the generator accepts that grammar |
| Driver.Parser.constructor | calc/tools/lempar.c:320-344 | only the bottom entry is on the stack, no error is pending |
| Driver.Parser.Shift | calc/tools/lempar.c:643-680 | pushes the token with its state or pending reduction, or empties the stack when it is full |
| Driver.Parser.ReduceOnce | calc/tools/lempar.c:706-753 | pops the right-hand side and pushes the goto, each failing assertion an outcome of its own |
| Driver.Parser.Once | calc/tools/lempar.c:879-1040 | one iteration of the loop is the function Iterate on the stack array; a syntax error is reported exactly if the token is rejected while yyerrcnt is not positive |
| Driver.Parser.Parse | calc/tools/lempar.c:843-1040 | the loop is the repetition of that function, for as many iterations as the fuel allows; an error met after any number of reductions is reported exactly if yyerrcnt was not positive before them |
| Driver.StackBounded | calc/tools/lempar.c:643-680 | in every run over any tables the stack keeps at least its bottom entry and at most as many as it has room for |
| Driver.RoomKept | calc/tools/lempar.c:643-680 | an iteration overflows only on a full stack, and then leaves the bottom entry alone |
| ErrorReports.CountdownExact | calc/tools/lempar.c:929-1036 | in every run yyerrcnt is 3 less the tokens shifted since the last error; before the first error, and after a parse that failed, it is -1 less the tokens shifted; it is positive exactly after an error that fewer than three shifted tokens follow. Unlike what the comment at line 1023 says, a token lost to a full stack in yy_shift counts as shifted |
| ErrorReports.ReportedExactly | calc/tools/lempar.c:1018-1036 | an error in a run is reported if and only if there was none since the run began or a parse ended, or at least three tokens were shifted since the last one |
| Machine.DotSymbolsOnStack | calc/tools/lempar.c:706-753 | a configuration with dot d in the top state has its first d symbols on top of the stack and its dot-0 form d entries below |
| Machine.ReduceSafe | calc/tools/lempar.c:706-753 | a reduction pops exactly its right-hand side, never passes the bottom, finds its goto, and accepts exactly at the bottom |
| Machine.Soundness | calc/tools/lempar.c:843-938 | for any allowed decisions, no run gets stuck, and an accepting run has consumed a sentence |
| Machine.Completeness | calc/tools/lempar.c:843-938 | with faithful decisions every sentence followed by $ is accepted |
| Simulation.ChainRun | calc/tools/lemon.c:5075-5097 | the bypass leads to the same stack as running the chain of unit reductions |
| Simulation.SimStep | calc/tools/lempar.c:879-1040 | one iteration on the generated tables is one or more steps of the machine, whatever the token; pending reductions sit only on top |
| ParserRuns.DriverSound | calc/tools/lempar.c:843-938 | for every token sequence, stack depth and number of iterations no assertion fails; accepting leaves exactly the bottom entry, and the tokens kept since the stack was last emptied are a sentence, all tokens before the $ if there was no error |
| ParserRuns.DriverComplete | calc/tools/lempar.c:843-938 | every sentence followed by $ is accepted without error by every parser with a deep enough stack |
| ParserRuns.DriverExact | calc/tools/lempar.c:843-938 | the tokens accepted are exactly the sentences of the grammar |
| Termination.TokenEnds | calc/tools/lempar.c:879-1040 | without conflicts, and when every nonterminal derives some word, the machine is done with every token, whether or not it can come next |
| Termination.DriverEnds | calc/tools/lempar.c:879-1040 | from any point of any run the loop is done with the token at hand after finitely many iterations |
| UsedRules.NeverOptimizedOut | calc/tools/lemon.c:4574-4584 | in every run over any tokens, no reduction is by a rule that no action of a numbered state reduces by, so the assertion emitted for OPTIMIZED OUT rules holds |
| UsedRules.GeneratedUsed | calc/tools/lemon.c:4574-4584 | no code in the tables makes the driver reduce by such a rule |
| Generate.TablesReady | calc/tools/lemon.c:4288-4742 | the emitted tables answer every lookup as the decisions and the automaton say |
| Generate.BuildActions | calc/tools/lemon.c:1755-1759 | FindActions and CompressTables in order; resolved and compressed actions, or an outcome that says why the third pass did not end |
| Generate.BuildTables | calc/tools/lemon.c:1761-1770 | ResortStates and ReportTable in order: counts, a strict order of the states, the packing and the tables, each determined by the one before |
| Generate.NowServed | calc/tools/lemon.c:1761-1770 | in tables from a packing in which all searches found a clear place, every row can be read |
| Generate.GenerateParser | calc/tools/lemon.c:1739-1770 | from a grammar to its automaton, least lookahead sets, resolved and compressed actions and tables; it comes to its end exactly when no state has a cycle of bypasses, in particular when the code-free unit rules form no cycle; when every search in the packed table found a clear place and the last numbered state has token actions, the parser is safe and sound on every token sequence, exact when there was no conflict, and then done with every token when every nonterminal derives some word |
| HashTable.ChainedAppend | calc/tools/lemon.c:5714-5722 | linking a node at the head of its chain keeps every chain in order |
| HashTable.Table.Search | calc/tools/lemon.c:5678-5688 | the walk along a chain finds the node with the key, or proves it absent |
| HashTable.Table.Find | calc/tools/lemon.c:5728-5742 | the value in the map under the key, or nothing |
| HashTable.Table.Insert | calc/tools/lemon.c:5671-5724 | fails exactly on a present key and then changes nothing; otherwise the map gains the key and the node comes last |
| HashTable.Table.Grow | calc/tools/lemon.c:5689-5713 | doubling keeps all nodes, their order and the map |
| HashTable.Table.ArrayOf | calc/tools/lemon.c:5746-5757 | the values in the order of insertion |
| HashTable.Table.Clear | calc/tools/lemon.c:5885-5893 | the empty map |
| Conditions.EvalBoolean | calc/tools/lemon.c:2793-2883 | the loop computes the evaluation function, syntax errors with their positions included |
| Conditions.ConditionsEvaluate | calc/tools/lemon.c:2793-2883 | the text of every condition evaluates to its meaning: right-nested, short-circuited, with negations and parentheses |
| Conditions.NoTerm | calc/tools/lemon.c:2798-2873 | an operator or a strange character where a term should begin is a syntax error at its place |
| Conditions.TwoTerms | calc/tools/lemon.c:2798-2873 | after a term, anything but white space or an operator is a syntax error at its place |
| Conditions.Unclosed | calc/tools/lemon.c:2818-2850 | with nothing behind it, a parenthesis that is never closed is a false term; with anything but an operator it is a syntax error |
| Conditions.UnclosedTerm | calc/tools/lemon.c:2818-2850 | with an operator and a condition behind it, it is a false term too: the check at line 2839 is never reached |
| Conditions.ErrorInside | calc/tools/lemon.c:2824-2836 | a syntax error in parentheses is one at its place in the whole text |
| Conditions.SpaceAlike | calc/tools/lemon.c:2798-2799 | any white space may stand for any other |
| Preprocess.CounterFollows | calc/tools/lemon.c:2899-2939 | the single counter is the height above the outermost branch not taken, whatever the directive |
| Preprocess.ExcludedMeans | calc/tools/lemon.c:2899-2939 | the counter is zero exactly when every enclosing branch is taken |
| Preprocess.PreprocessInput | calc/tools/lemon.c:2890-2946 | newlines never move; the run gives up exactly on a condition that does not parse where all enclosing branches are taken; otherwise the text that survives is exactly the text outside directives whose enclosing branches are all taken, and the run fails exactly on an excluded region left open |
| Documents.ConditionLine | calc/tools/lemon.c:2917-2940 | the branch behind a line with %if or %ifdef and a condition is taken if and only if the condition holds, behind %ifndef if and only if it does not, where all enclosing branches are taken; elsewhere the condition is not looked at |
| Documents.BadLine | calc/tools/lemon.c:2917-2940 | where all enclosing branches are taken, a condition that does not parse makes the run give up |
| Documents.ElseLine | calc/tools/lemon.c:2907-2916 | a line with %else turns to the other branch of the innermost conditional |
| Documents.EndifLine | calc/tools/lemon.c:2899-2906 | a line with %endif closes the innermost conditional |
| Documents.EndifAtEnd | calc/tools/lemon.c:2899 | an %endif that no newline follows closes nothing |
| Documents.PlainLeaves | calc/tools/lemon.c:2896-2941 | any other line changes no branch, and stays exactly where all enclosing branches are taken |
| Documents.DocumentMeans | calc/tools/lemon.c:2890-2946 | of a text of lines and nested conditionals, with or without %else, what survives is what the conditions choose, with all else blanked |
| Documents.PreprocessDocument | calc/tools/lemon.c:2890-2946 | on the text of such a document the run succeeds and leaves exactly that |
| Scanner.Input.Fill | re2c/scanner/scanner.c:23-51 | the window stays the slice of the file at its absolute position, no position moves, and at least the needed bytes can be read; fails exactly at end of input or when the token leaves no room |
| Scanner.Input.StepRun | re2c/scanner/scanner.c:94-103 | the cursor stops right after the longest run of the class |
| Scanner.Input.Lex | re2c/scanner/scanner.c:53-225 | the bytes from where the last token ended are blanks up to a lexeme of the token returned, which is the longest match of all rules and of the earliest rule among equals; fails only past the end or on a lexeme that fills the buffer |
| Scanner.MatchIsLongest | re2c/scanner/scanner.re:62-107 | against the rules as sets of byte strings: the lexeme recognised belongs to its token, no rule matches a longer one, and no earlier rule one as long |
| Scanner.LongestUnique | re2c/scanner/scanner.re:62-107 | only one token and length meet that condition |
| TokenizerInput.Stream.constructor | tokenizer/scanner/input.c:34-57 | an empty window at the start of the file, closed by the sentinel |
| TokenizerInput.Stream.Fill | tokenizer/scanner/input.c:59-85 | the window stays the slice of the file, closed by the sentinel; unless the end was reached a byte can be read |
| TtyQueue.DoMap | myterm/picocom/picocom.c:767-843 | the bytes written obey the flags, byte class by byte class and in the order of their precedence, and nothing else is written; the final assertion fails exactly on ignored bytes |
| TtyQueue.MappedObeys | myterm/picocom/picocom.c:767-843 | for every set of flags and every byte exactly one result obeys them: CR by crlf, crcrlf, igncr, crhex in this order, LF by lfcr, lfcrlf, ignlf, lfhex, DEL and BS by delbs and bsdel before spchex, and the other hexadecimal flags each on its own class, as [xx] with the digits written out; a byte that no flag names stays itself |
| TtyQueue.Map2Hex | myterm/picocom/picocom.c:755-765 | the byte in brackets as two hexadecimal digits |
| TtyQueue.IgnoredIsFatal | myterm/picocom/picocom.c:785-840 | the bytes mapped to nothing are exactly those on which igncr or ignlf takes effect |
| TtyQueue.IgnoredWitness | myterm/picocom/picocom.c:791-840 | with igncr alone, CR is such a byte |
| TtyQueue.Queue.MakeRoom | myterm/picocom/picocom.c:1221-1233 | doubling keeps the queue; it stops only when fewer than 4 of 32768 bytes are free or an allocation fails |
| TtyQueue.Queue.Push | myterm/picocom/picocom.c:1216-1243 | a prefix of the bytes is accepted, and what was written followed by what is queued is the mapping of what was accepted |
| TtyQueue.Queue.WriteStep | myterm/picocom/picocom.c:1702-1718 | the written bytes move from the front of the queue to the port, and nothing is lost |
| TtyQueue.Queue.Flush | myterm/picocom/picocom.c:1347 | the queue is dropped, and the account of its bytes begins anew |
| TtyQueue.Hex2Bin | myterm/picocom/picocom.c:424-449 | the loop computes the decoding function, which HexExact describes |
| TtyQueue.HexExact | myterm/picocom/picocom.c:402-449 | a text decodes to some bytes if and only if it is these bytes as pairs of hexadecimal digits, in either case, with any delimiters between the pairs, and with anything behind the last pair that fits or only delimiters before that |

## Left out

- Driver.Parser.Parse: the loop is cut off after a given number of iterations, because on cyclic grammars
  with conflicts the C loop need not end; the theorems about whole runs hold for every number of iterations, and
  Termination.DriverEnds says when the loop ends by itself.
- Rules declared NEVER-REDUCE, and the assertion emitted for them.
- Generate.GenerateParser: assumes `TieFree`; what the tables hold for a symbol with both an ERROR and a reduction is
  not modelled, here and from Compression.CompressTables on.
- Compress.BypassState: the bypasses of one action are cut off after a given number, since they need not end; from
  nsymbol bypasses on the outcome is the same for every number.
- `%fallback`, `%wildcard`, MULTITERMINAL token classes, YYERRORSYMBOL recovery and the `-c` and `-r`
  options: they change what the theorems say.
- A parser stack that grows (YYSTACKDEPTH of 0), minor values, destructors, tracing and coverage: not
  part of the properties.
- The grammar reader, symbol numbering, rule precedences and all text output: the model starts from a grammar and
  ends with the numbers in the tables. The width of the integer types chosen for the tables is not modelled.
- The SHIFT actions that `buildshifts` creates are kept as a map from symbols to states until `FindActions`
  lists them; back links are attached once the target state is known.
- The state and configuration tables are maps in the generator; that the chained tables refine maps is
  proved separately, with the bucket of a key as a parameter instead of masked bits, and without the back
  pointers that nothing reads.
- Sets of terminals are mathematical sets, not byte arrays; linked lists are sequences, so the relinking of
  nodes by `merge` is not modelled.
- `qsort` is any routine that returns a sorted permutation.
- Acttab.ActionTable.ActionSize: slots beyond the allocation count as empty, also for Report.EmitLookahead; when
  nAction passes the allocation the C code reads what is not its own.
- Allocation failure, except in picocom's queue, where it is a parameter.
- A stale marker before the first token is not given a meaning in the lexer window; line numbers in
  messages of the `%if` preprocessor are dropped.
- picocom's local echo, logging and terminal control; the sockets, timers, GTK, sqlite and other sample
  programs of the repository: input and output plumbing or easy members.

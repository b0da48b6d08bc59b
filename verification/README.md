# Turbo Flow: verified models

Models, in Dafny 4.11, of the parts of Turbo Flow whose correctness is hardest to see from the code:

- **The lemon parser generator and its driver** (`tools/lemon`). From a grammar to the packed arrays: nullable and FIRST
  sets, the LR(0) states with their recursive construction, propagation links and LALR(1) follow-sets, action lists,
  conflict resolution, the three passes of table compression, the renumbering of the states, the `acttab` packing, the
  emitted tables; then the driver that runs on them, with its growing stack and its error branch. The results meet at
  the end: for every grammar and token stream the generated parser is sound; without conflicts it accepts exactly the
  language; and it is known on which streams it comes to an end.
- **The schedule source** (`schedule`). The slot protocol as a state machine with one atomic operation per step, any
  number of timer callbacks, completions, the bootstrap thread and stop interleaving freely; the cron catch-up; the
  timer slices.
- **The observer** (`observe`). The pool controller over every trace of ticks, and the conservation laws of the stage
  series and of the event history.
- **The codecs** (`codec`). CSV rows and a reader that undoes them, the loop check of the splitter, length-prefixed
  frames.

Code that updates in place is a method or a class with fields; each is tied to a function or a predicate on values, and
the laws are proved about those. `dafny verify dfyconfig.toml` checks everything.

| file | models |
|---|---|
| `Grammar.dfy` | grammars, derivations, parse trees |
| `FirstSets.dfy`, `Closure.dfy`, `States.dfy`, `FollowSets.dfy` | the automaton and its lookaheads |
| `Conflicts.dfy`, `ActionLists.dfy`, `Compress.dfy`, `UnitRules.dfy` | the action lists of the states |
| `Resort.dfy`, `Acttab.dfy`, `Packed.dfy` | the renumbered states and the packed arrays |
| `Driver.dfy`, `LrTheory.dfy`, `Simulation.dfy`, `Skipping.dfy` | the driver on an abstract table, and why it is right |
| `Termination.dfy`, `Choices.dfy`, `EndlessChoice.dfy`, `Unambiguous.dfy`, `Laps.dfy`, `Endings.dfy` | when its loop comes to an end |
| `Generator.dfy`, `Engine.dfy` | the whole generator; the driver on the packed arrays |
| `BuildFacts.dfy`, `SingleRules.dfy` | what the generator makes of given grammars |
| `CyclicGrammar.dfy`, `UselessSymbol.dfy`, `TrimmedStates.dfy`, `IdleCycles.dfy`, `CrampedTable.dfy` | grammars where something fails |
| `MergeSort.dfy`, `HashTable.dfy` | lemon's list sort and hash tables |
| `Schedule.dfy`, `Cron.dfy` | the schedule source |
| `Reconcile.dfy`, `Observe.dfy` | the observer |
| `Csv.dfy`, `Reach.dfy`, `LengthPrefix.dfy` | the codecs |
| `Wrappers.dfy` | `Option`, and sequences without repetition |

What the models take from outside: the clock, the answers of `salts_cron_next` (the least matching minute after its
argument, or an error), whether a publication, an allocation or a resize command succeeds, the pool's utilisation, and
the hash functions. `turbo_flow_publish_async` is taken to complete each accepted publication once, and
`salts_timer_destroy` to return when no callback runs and none will.

Some properties turned out to need a condition, which is exact unless said otherwise:

- *Token lookups stay inside `yy_shift_ofst`.* The states at the end without an entry on a token are left out of it, but
  the driver can come to one of them. True exactly if the last state that is kept has an entry on a token
  (`Packed.LookupsInside`); `TrimmedStates` is a grammar where it has none, and where the driver comes there.
- *The packed table stays inside its allocation.* All writes do, but `nAction` can pass the allocation until the next
  insertion makes it good (`Acttab.FirstSetOverflows`); exactly when is in `Acttab.ActionTable.Insert`. If it is so
  after the last insertion, the table is read past its end; that depends on the sets alone, and `Packed.StoreSets` says
  exactly when. `CrampedTable` is a grammar where it happens.
- *Packed sets do not hit one another.* What the driver looks up is always right, but a set of nonterminals may lie where
  another nonterminal would be looked up (`Acttab.LastSetClashes`); exactly when is in `Acttab.ExactUnlessBlocked`.
- *The driver's loop ends.* Not for every grammar (`CyclicGrammar`), and not for every grammar without conflicts
  (`UselessSymbol`). On a given stream it ends exactly if the run makes no lap (`Laps.EndsUnlessLap`,
  `Endings.HaltsUnlessLap`). A parser that is free to choose its rules always ends exactly if the grammar has neither
  hidden left recursion nor cycles in use (`EndlessChoice.LooplessIff`); then every table does (`Choices.LoopEnds`). That
  holds for every grammar without conflicts and unproductive symbols (`Unambiguous.NothingComesBack`).
- *The third pass of `CompressTables` ends, with its assertion true.* Exactly if every chain of unit rules without code
  ends (`UnitRules.PassEndsIff`, `Generator.ThirdPassEnds`), for which there are two conditions on the grammar that
  suffice. `IdleCycles` has a grammar where the assertion fails, and one with a cycle where all goes well.
- *Each matching minute is published once.* The cron cursor uses 0 for "none", so calls in minute 0 can publish it twice
  or skip minutes (`Cron.MinuteZeroTwice`, `Cron.MinuteSkipped`); exactly when is in `Cron.EachMinuteOnceIff` and
  `Cron.CleanRunExact`.
- *A restart is like a first start.* Exactly if no publication is outstanding (`Schedule.RestartKeeps`); otherwise the
  slot can be lost for good (`Schedule.RestartLoses`, `Schedule.LostForever`).

## Model

| member | source | states |
|---|---|---|
| `Grammars.DerivationForest` | tools/lemon/lempar.c:742-789 | every derivation of a token string, in any order of rewriting, has a valid forest of parse trees with that frontier |
| `Grammars.RightmostAppend` | tools/lemon/lempar.c:685-716 | a token shifted to the right of a sentential form takes no part in its rightmost derivation |
| `Grammars.RightmostDerives` | tools/lemon/lempar.c:742-789 | what a list of rules derives rightmost is derived by the grammar |
| `FirstSets.NullableGeneratesEmpty` | tools/lemon/lemon.c:932-947 | a nonterminal is nullable, as defined inductively, exactly if it has a parse tree with the empty frontier |
| `FirstSets.FindLambdas` | tools/lemon/lemon.c:932-947 | the first loop terminates, with `lambda` set for exactly the nullable symbols |
| `FirstSets.RuleTurn` | tools/lemon/lemon.c:950-972 | a rule's turn keeps the sets sound; it reports progress exactly if a missing token was added, and otherwise the rule is satisfied, the skip of a self-recursive symbol and multiterminals included |
| `FirstSets.FindFirstSets` | tools/lemon/lemon.c:919-974 | terminates with `lambda` and `firstset` sound and complete for the inductive nullable and FIRST relations |
| `FirstSets.ForestBegins` | tools/lemon/lemon.c:950-972 | the first token of anything a symbol string derives is in the inductive FIRST of that string |
| `MergeSort.Merge` | tools/lemon/lemon.c:1959-1992 | merging two sorted lists gives a sorted list in which the elements that compare equal keep their order, those of the first list first |
| `MergeSort.Carry` | tools/lemon/lemon.c:2022-2031 | one element added to the binary counter of 30 lists keeps all lists sorted and the order of equal elements, also when the last list is used again |
| `MergeSort.Msort` | tools/lemon/lemon.c:2011-2035 | for a list of any length the result is sorted, a permutation, and stable |
| `MergeSort.StableIsPermutation` | tools/lemon/lemon.c:2011-2035 | a rearrangement that keeps, for every element, the list of its equals is a permutation |
| `ConfigClosure.FirstOfTail` | tools/lemon/lemon.c:1501-1516 | the inner loop adds exactly the FIRST set of the rest of the right-hand side, and tells whether that rest can vanish |
| `ConfigClosure.CloseOne` | tools/lemon/lemon.c:1488-1520 | a configuration's turn adds all rules of the nonterminal after its dot, exactly the lookaheads it brings them, and exactly the propagation links it must have |
| `ConfigClosure.Closure` | tools/lemon/lemon.c:1480-1521 | the list is the least closed one with the basis, and its follow-sets and links are exactly those the closed list calls for, whatever the order of the turns |
| `States.OrderedUnique` | tools/lemon/lemon.c:5776-5788 | sorted configuration lists with the same elements are equal, so `statecmp` compares sets |
| `States.SortConfigs` | tools/lemon/lemon.c:1525-1539 | the list sorted by rule and dot, with the same elements and no repetition |
| `States.Collect` | tools/lemon/lemon.c:1127-1135 | the inner loop collects exactly the advanced configurations that shift the symbol, with a back link for each, and marks them complete |
| `States.Builder.Find` | tools/lemon/lemon.c:5912-5925 | a state with that basis if there is one |
| `States.Builder.GetState` | tools/lemon/lemon.c:1044-1083 | returns the state whose basis is the given configurations as a set, made with all its successors if it is new; terminates because fewer item sets are left unused; keeps the invariant of all states |
| `States.Builder.ShiftOver` | tools/lemon/lemon.c:1118-1151 | one new edge over the symbol, to the state whose basis is the advanced configurations, which are then all complete |
| `States.Builder.BuildShifts` | tools/lemon/lemon.c:1104-1152 | the state ends up with one edge for each symbol after a dot, and all states made on the way are finished |
| `States.FindStates` | tools/lemon/lemon.c:982-1038 | the construction ends with all states finished, the first one having the start rules, followed by 0, as its basis |
| `States.BasesDiffer` | tools/lemon/lemon.c:1053-1081 | no two states have the same set of basis configurations |
| `States.BackLinksExact` | tools/lemon/lemon.c:1127-1135 | the back links of a configuration are exactly its shift predecessors |
| `States.StatesAreLr0` | tools/lemon/lemon.c:1044-1152 | the states form the LR(0) automaton: each list is closed and grounded in its basis, each edge leads to exactly the advanced configurations, every asked-for edge is there |
| `States.StatesAreLeast` | tools/lemon/lemon.c:1044-1152 | no state has a configuration its basis does not call for, and every state but the first is shifted to from an earlier one |
| `FollowSets.Propagate` | tools/lemon/lemon.c:1205-1220 | a configuration's turn passes its follow-set along all its links, marks grown ones incomplete, and keeps every COMPLETE configuration's links satisfied |
| `FollowSets.FindFollowSets` | tools/lemon/lemon.c:1192-1224 | terminates at the least family of follow-sets that contains the initial one and is closed under every link |
| `FollowSets.FindLinks` | tools/lemon/lemon.c:1157-1185 | the forward links are exactly the turned back links together with those of the closure |
| `FollowSets.ComputeFollow` | tools/lemon/lemon.c:1157-1224 | the follow-sets are the least solution of the LALR(1) equations of the automaton, and only 0 follows the start rules |
| `FollowSets.FollowsAreClosed` | tools/lemon/lemon.c:1192-1224 | the computed sets satisfy the LALR(1) equations |
| `FollowSets.FollowsAreLeast` | tools/lemon/lemon.c:1192-1224 | they are inside every other solution |
| `FollowSets.OnlyEndFollowsStart` | tools/lemon/lemon.c:1010-1031 | only the end of input follows a rule of a start symbol that is on no right-hand side |
| `Conflicts.ActionOrder` | tools/lemon/lemon.c:594-610 | the comparison of actions is a total preorder, as the sort demands |
| `Conflicts.PairResolved` | tools/lemon/lemon.c:1319-1379 | on a sorted list without nonassoc ties: of two live actions exactly one stays live, the error count says whether a conflict was marked, and the assertion of the final branch holds |
| `Conflicts.PairIs` | tools/lemon/lemon.c:1319-1379 | of two actions the reduce wins over a shift exactly if both have levels and its own is higher, or the same with the token left-associative; over an earlier reduce exactly if both have levels and its own is higher; the loser is marked resolved, or as a conflict where a level is missing or two reduces have the same |
| `Conflicts.TiedPair` | tools/lemon/lemon.c:1345-1348 | a tie on a nonassoc token marks the shift ERROR and leaves the reduce; at every further action on that token the assertion of the final branch fails |
| `Conflicts.ChampionHolds` | tools/lemon/lemon.c:1277-1289 | the action left on a lookahead is the first shift if no rule takes precedence over it, or else the first rule of the highest level, or the very first action if that is a rule without a level |
| `Conflicts.FateIs` | tools/lemon/lemon.c:1277-1289 | so what becomes of each action is known from the list alone, without going through its pairs |
| `Conflicts.ResolveAll` | tools/lemon/lemon.c:1277-1289 | after the pairwise pass every action is what precedence and associativity decide (`Decides`, below); every lookahead that had an action has exactly one live one, the first if there are no precedences; an action alone on its lookahead is untouched; the returned count is the number of actions marked as conflicts |
| `ActionLists.ActionAdd` | tools/lemon/lemon.c:621-639 | a new action at the head of the list, told apart from all others |
| `ActionLists.ShiftActions` | tools/lemon/lemon.c:1141-1150 | exactly one SHIFT action for each token a multiterminal stands for, or for the symbol |
| `ActionLists.ReduceActions` | tools/lemon/lemon.c:1242-1256 | exactly one REDUCE action for each finished configuration and each token that may follow it |
| `ActionLists.ListActions` | tools/lemon/lemon.c:1141-1274 | the actions of a state are exactly the shifts, reduces and the accept its automaton state and follow-sets ask for |
| `ActionLists.SortActions` | tools/lemon/lemon.c:613-619 | the list sorted, with the same actions |
| `ActionLists.StateActions` | tools/lemon/lemon.c:1230-1289 | the resolved list has one live action for each lookahead, each of them asked for; which one, and the mark of every other, is what the levels and associativities of the shifts and rules asked for decide; nothing is marked exactly if the state asks for at most one action on each symbol; without precedences a shift wins, or else the earliest rule |
| `ActionLists.ListDecided` | tools/lemon/lemon.c:1319-1379 | that decision in terms of what the automaton asks for, for every shift and every rule, and each of them is in the list |
| `ActionLists.ShiftAgainstReduce` | tools/lemon/lemon.c:1330-1348 | for one shift against one rule: the rule is used exactly if its level is higher, or the same with the token left-associative; without a level it is a conflict, for the shift |
| `ActionLists.FindActions` | tools/lemon/lemon.c:1230-1289 | so for all states, wherever no shift and reduce that a state asks for tie on a token declared nonassoc; and the number of conflicts in all of them |
| `ActionLists.StartNotShifted` | tools/lemon/lemon.c:1258-1274 | the start symbol is never shifted, so the accept action meets no conflict |
| `ActionLists.LookupIsLive` | tools/lemon/lemon.c:3696-3720 | before compression a table entry is the one live action of that state on that symbol, and an error where there is none |
| `ActionLists.RawTableSound` | tools/lemon/lemon.c:1230-1274 | for every grammar, with conflicts or without, the table does only what the automaton allows, and accepts only on 0 in the first state |
| `ActionLists.RawTableComplete` | tools/lemon/lemon.c:1230-1289 | if no action is marked as a conflict or settled by precedence, the table does all that the automaton calls for |
| `LrTheory.Handle` | tools/lemon/lempar.c:742-789 | every configuration of the top state has its matched part on top of the stack, and the state under that part has the same configuration with nothing matched |
| `LrTheory.GotoDefined` | tools/lemon/lempar.c:614-638 | the goto after a reduce is always defined: a move of the automaton, or accept for the start symbol, and then in state 0 |
| `LrTheory.ReduceStack` | tools/lemon/lempar.c:742-789 | the right-hand side of the rule reduced by is on top of the stack, and popping it uncovers a state with a goto |
| `LrTheory.ReduceSound` | tools/lemon/lempar.c:742-789 | a reduce keeps the invariant: the stack followed by the rest derives rightmost, by the reductions backwards, what was shifted |
| `LrTheory.ShiftSound` | tools/lemon/lempar.c:685-716 | so does a shift |
| `LrTheory.DriverSound` | tools/lemon/lempar.c:915-967 | over every token stream and any number of steps: no assertion fails, and on acceptance the reductions backwards are a rightmost derivation from the start symbol of exactly the shifted tokens, the whole input if there was no syntax error |
| `LrTheory.AcceptsOnlySentences` | tools/lemon/lempar.c:915-967 | what is accepted without a syntax error is a sentence of the grammar |
| `LrTheory.ReadForest` | tools/lemon/lempar.c:915-967 | the driver reads any forest of parse trees standing after the dot, onto the stack, in finitely many steps |
| `LrTheory.SentencesAccepted` | tools/lemon/lempar.c:915-967 | every sentence is accepted, and without a syntax error |
| `LrTheory.SentenceRead` | tools/lemon/lempar.c:915-967 | a parse tree of a sentence is read in exactly as many passes through the loop as it has nodes and leaves, and the next pass accepts |
| `Termination.RulesStartLow` | tools/lemon/lempar.c:915-967 | on a stack of vanishing symbols, rules that are begun above a place begin the lower the higher their rank in the relation of hidden left recursion |
| `Termination.HeightBound` | tools/lemon/lempar.c:915-967 | so without hidden left recursion the vanishing symbols above a place are at most as many as a bound of the grammar |
| `Choices.EveryChoiceStops` | tools/lemon/lempar.c:915-967 | whichever of the complete rules of its states a parser chooses to reduce by, at each step anew, its reduces come to an end from every stack, if no nonterminal in use comes back hidden behind vanishing symbols or as all that is left of itself |
| `EndlessChoice.ComesBackForEver` | tools/lemon/lempar.c:915-967 | if one does, there are a stack and a choice of rules with which the reduces go on for ever |
| `EndlessChoice.LooplessIff` | tools/lemon/lempar.c:915-967 | so all reduces end, whatever is chosen, if and only if nothing in use comes back |
| `Choices.LoopEnds` | tools/lemon/lempar.c:915-967 | in particular, for every table that does what the automaton allows, with conflicts or without, the loop ends on every token if nothing in use comes back |
| `Termination.WithoutEmptyRules` | tools/lemon/lempar.c:915-967 | in a grammar without empty rules that condition holds exactly if no unit rules lead from a nonterminal in use to itself |
| `Unambiguous.SameSize` | tools/lemon/lempar.c:915-967 | under a table sound and complete for its automaton, parse trees of the same sentence have the same size |
| `Unambiguous.SameTime` | tools/lemon/lempar.c:915-967 | and sentences that agree up to a token have it shifted after the same number of passes |
| `Unambiguous.OneReading` | tools/lemon/lempar.c:915-967 | the same holds inside every nonterminal in use, if all that is in use can be completed to tokens |
| `Unambiguous.NothingComesBack` | tools/lemon/lempar.c:915-967 | so then nothing in use comes back: no conflicts and no unproductive symbols mean that the loop ends |
| `Laps.LapNeverEnds` | tools/lemon/lempar.c:915-967 | once a run has come back to the same stack, or to the same state above all it stood on, the loop on that token never ends |
| `Laps.EndsUnlessLap` | tools/lemon/lempar.c:915-967 | for every table that does what the automaton allows and every stack, the loop ends on a token if and only if its run makes no such lap |
| `LrTheory.AcceptsExactlyTheLanguage` | tools/lemon/lempar.c:915-967 | a table both sound and complete for its automaton accepts exactly the language |
| `Compress.BestRule` | tools/lemon/lemon.c:5181-5206 | the rule, not of the start symbol, that most REDUCE actions of the state use, and of several the one that comes first; none exactly if there is none |
| `Compress.DefaultAndSort` | tools/lemon/lemon.c:5215-5224 | the first REDUCE action by the best rule moves to the default, the others by it are gone, everything else stays, and the list is sorted again |
| `Compress.DefaultState` | tools/lemon/lemon.c:5181-5234 | a state's list after the first pass, and whether it only reduces |
| `Compress.AutoIff` | tools/lemon/lemon.c:5226-5234 | a state is taken to only reduce exactly if it has a default and, but for an accept, nothing else is left in its list |
| `Compress.DefaultLookup` | tools/lemon/lemon.c:5215-5224 | every token that had an action keeps it; a token without one reduces by the default rule and is not shifted |
| `Compress.ShiftReduces` | tools/lemon/lemon.c:5240-5251 | a SHIFT to a state that only reduces by default becomes a SHIFTREDUCE by that rule |
| `Compress.ConvertedRow` | tools/lemon/lemon.c:5240-5251 | the converted row has the same entries, converted one by one, and the same default |
| `Compress.CompressTables` | tools/lemon/lemon.c:5172-5251 | the first two passes, related to the tables before them, action list by action list; the default rules are used by the states they are defaults of |
| `UnitRules.PassEndsIff` | tools/lemon/lemon.c:5259-5285 | the loop over a state's list, step by step, comes to its end with the assertion true if and only if every chain of unit rules without code ends in an entry that stays |
| `UnitRules.NoCycleEnds` | tools/lemon/lemon.c:5259-5285 | it does if no cycle of such rules is in the grammar |
| `UnitRules.SkipUnits` | tools/lemon/lemon.c:5259-5285 | then, in place, each entry of a unit rule without code becomes the entry its chain ends in, and the others stay |
| `UnitRules.SkipAllUnits` | tools/lemon/lemon.c:5253-5285 | so for all states: token entries stay, and every goto is the one at the end of its chain of skipped rules |
| `UnitRules.NoneLeft` | tools/lemon/lemon.c:5259-5285 | afterwards no goto reduces by a rule with one symbol and no code |
| `Skipping.ChainRun` | tools/lemon/lemon.c:5253-5258 | the parser before this pass reduces through a whole chain, one rule after the other, over the same state |
| `Skipping.StepSkips` | tools/lemon/lemon.c:5253-5258 | a pass of the shortened parser is one or more passes of the other, and they agree but for the skipped rules |
| `Skipping.EndsAlike` | tools/lemon/lemon.c:5253-5258 | where one of the two comes to an end so does the other, with the same outcome, the same tokens, and the same rules with code |
| `Skipping.AcceptsAlike` | tools/lemon/lemon.c:5253-5258 | they accept the same inputs |
| `Skipping.TokenEnds` | tools/lemon/lemon.c:5253-5258 | where the loop ends on a token, it ends with the shortened gotos |
| `Simulation.DefaultsSound` | tools/lemon/lemon.c:5181-5234 | the table with defaults is still sound for the automaton |
| `Simulation.DefaultsComplete` | tools/lemon/lemon.c:5181-5234 | and still complete |
| `Simulation.AutoRuleNotEmpty` | tools/lemon/lemon.c:5226-5233 | a state that only reduces never does so by an empty rule |
| `Simulation.StepSame` | tools/lemon/lempar.c:685-716 | one pass through the loop: the parser with SHIFTREDUCE entries and the one that shifts to the reducing state do the same |
| `Simulation.SimulatesStepByStep` | tools/lemon/lempar.c:549-556 | on every input the two parsers run in lock step |
| `Simulation.AcceptsSame` | tools/lemon/lempar.c:685-716 | so they accept the same inputs |
| `Acttab.NewReadsBack` | tools/lemon/lemon.c:821-856 | a set written into a hole reads back exactly at its offset, and no other lookahead matches there |
| `Acttab.OldReadsBack` | tools/lemon/lemon.c:821-856 | a set inserted before is not disturbed by it |
| `Acttab.DuplicateReadsBack` | tools/lemon/lemon.c:790-815 | a set found equal to one in the table reads back exactly |
| `Acttab.ActionTable.Add` | tools/lemon/lemon.c:719-743 | the transaction set grows by the pair, with its least and greatest lookahead known |
| `Acttab.ActionTable.FindDuplicate` | tools/lemon/lemon.c:790-815 | only a slot where the whole set already is counts as found |
| `Acttab.ActionTable.FindHole` | tools/lemon/lemon.c:821-843 | the first slot of the scanned range where the set fits without a false hit, or else the place where the scan gives up |
| `Acttab.ActionTable.Insert` | tools/lemon/lemon.c:760-863 | every write is inside the array, also where no hole is found; token sets read back exactly on all tokens, the others on their own members, through every further insertion and growth; nAction passes the allocation exactly if a token set has neither a duplicate nor a hole with all tokens inside, and never with at most half of nsymbol + 1 tokens; all sets read back exactly on all lookaheads if and only if the set is not blocked |
| `Acttab.PassesIfCramped` | tools/lemon/lemon.c:817-856 | the padding behind a token set stays inside the array if and only if the set has a duplicate or a hole with all tokens inside |
| `Acttab.TokensFit` | tools/lemon/lemon.c:764-782 | and always does with at most half of nsymbol + 1 tokens |
| `Acttab.ExactUnlessBlocked` | tools/lemon/lemon.c:817-856 | a further set keeps every set exact on all lookaheads, itself too, if and only if it is one of tokens or not blocked: no duplicate, no hole, and a hit where the scan gives up |
| `Acttab.OneTable` | tools/lemon/lemon.c:760-863 | the sets inserted, in their order, determine the table and nAction |
| `Acttab.FirstSetOverflows` | tools/lemon/lemon.c:764-782 | 29 tokens and one nonterminal, a lone action on the last token as the first set: it lies at offset 0 of 51 slots and nAction is 58 |
| `Acttab.LastSetClashes` | tools/lemon/lemon.c:821-856 | a token and 15 nonterminals, a sixth set that is blocked: it comes to lie where another nonterminal is looked up |
| `Packed.NumbersRoundTrip` | tools/lemon/lemon.c:3696-3720 | numbering actions and reading the numbers back is the identity, no action has the number of a missing one, and a shift has the number of a state that was kept |
| `Packed.SortSets` | tools/lemon/lemon.c:4684-4703 | both sets of every row, once each, larger ones first and equal ones by row, tokens before nonterminals |
| `Packed.FillSet` | tools/lemon/lemon.c:4709-4714 | the transaction set holds exactly the emitted actions of the state on tokens, or on nonterminals |
| `Packed.InsertSet` | tools/lemon/lemon.c:4706-4730 | the state's set is in the table at the offset kept for the state, an empty set gets no offset, and nAction is left past the allocation exactly by a token set that is cramped in the grown table |
| `Packed.StoreSets` | tools/lemon/lemon.c:4704-4730 | inserting the largest sets first and stopping at the first empty one puts the sets of all rows into the table; nAction ends past the allocation if and only if the last set is one of tokens and cramped in the table that the sets before it make; then tokens are more than half of nsymbol + 1 |
| `Packed.OverrunsIff` | tools/lemon/lemon.c:4704-4730 | that condition depends on the rows alone: the order of the sets and the table they make are determined |
| `Packed.TrimmedSize` | tools/lemon/lemon.c:869-873 | the size without the trailing unused slots |
| `Packed.CountKept` | tools/lemon/lemon.c:4858-4884 | the number of states up to the last one with an offset |
| `Packed.TokenLookup` | tools/lemon/lempar.c:549-608 | `yy_find_shift_action` on the written arrays, up to the last state with an entry on a token, fails no assertion and yields the state's own action on the token, or its default |
| `Packed.LookupsInside` | tools/lemon/lempar.c:556 | the token lookups of all states that are kept stay inside the trimmed arrays, and are right, if and only if the last of these states has an entry on a token |
| `Packed.LastLookupFails` | tools/lemon/lempar.c:556 | otherwise the assertion fails for that state on every token |
| `Packed.GotoLookup` | tools/lemon/lempar.c:614-638 | `yy_find_reduce_action` on the trimmed arrays yields the state's own action on a nonterminal that has one |
| `Packed.ReportTables` | tools/lemon/lemon.c:4699-4925 | the emitted arrays, trimmed, are right for every kept state with its tokens and nonterminals, and shift only to kept states; `ok` is false, because the table would be read past its end, if and only if the last set overruns the allocation |
| `Resort.CountActions` | tools/lemon/lemon.c:5318-5337 | the numbers of emitted actions on tokens and on nonterminals |
| `Resort.OrderStates` | tools/lemon/lemon.c:5338-5342 | all states once, the first in its place, the others by their actions on nonterminals, then on tokens, most first, then by their numbers, last first |
| `Resort.ResortStates` | tools/lemon/lemon.c:5312-5347 | a renumbering and its inverse, in that order; only auto-reduce states at the end are dropped, and all of those |
| `Generator.TablesAreTwins` | tools/lemon/lemon.c:5172-5251 | the tables before and after the SHIFTREDUCE conversion of every generated parser run in lock step |
| `Generator.UnitsFit` | tools/lemon/lemon.c:5253-5285 | after the first two passes the list of every state has an entry for the left-hand side of each rule to be skipped, whose right-hand side is the symbol of its entry |
| `Generator.ThirdPassEnds` | tools/lemon/lemon.c:5253-5285 | so the third pass ends, with its assertion true in every state, if and only if all chains end |
| `Generator.NoIdleCycleEnds` | tools/lemon/lemon.c:5253-5285 | they do, however conflicts are resolved, without a cycle of unit rules that have no code |
| `Generator.LooplessUnitsEnd` | tools/lemon/lemon.c:5253-5285 | and, whichever rules have code, in a grammar where nothing in use comes back |
| `Generator.CompressAll` | tools/lemon/lemon.c:5172-5285 | all three passes over all states, where all chains end |
| `Generator.ShiftsKept` | tools/lemon/lemon.c:5236-5285 | after CompressTables no shift or goto leads to a state that is dropped |
| `Generator.GeneratedSound` | tools/lemon/lemon.c:1230-1289 | for every grammar and token stream: the compressed table never fails a driver assertion, and its accepting runs are rightmost derivations of what was shifted, but for skipped unit rules |
| `Generator.GeneratedExact` | tools/lemon/lemon.c:1230-1289 | it accepts only sentences, and exactly the language if the grammar has no conflict |
| `Generator.GeneratedEnds` | tools/lemon/lempar.c:915-967 | wherever a run of the generated parser may be, its loop ends on the next token, if nothing in use comes back |
| `Generator.GeneratedHalts` | tools/lemon/lempar.c:915-967 | so it ends on every token stream, with conflicts or without |
| `Generator.FreeIsLoopless` | tools/lemon/lemon.c:1230-1289 | a grammar without conflicts in which all that is in use can be completed to tokens meets that condition |
| `Generator.ParserIsRight` | tools/lemon/lemon.c:1230-1289 | what is said of the generated parser, for every stream: sound; exact without conflicts; ends on it if nothing comes back, or without conflicts and unproductive symbols |
| `Generator.Generate` | tools/lemon/lemon.c:1855-1886 | the whole way from grammar to packed arrays: the reported number of conflicts and how each state resolved them, a parser that is right on every stream, right arrays, and exactly when these are not read past the end |
| `Endings.HaltsUnlessLap` | tools/lemon/lempar.c:915-967 | for every grammar, every resolution of its conflicts and every stream: the generated parser comes to an end if and only if the run of its table before SHIFTREDUCE and unit rules makes no lap |
| `CyclicGrammar.NeverHalts` | tools/lemon/lempar.c:915-967 | for S ::= B, A ::= A, B ::= A, A ::= x, whatever the build, the parser never comes to an end on x |
| `CyclicGrammar.IsSentence` | tools/lemon/lempar.c:915-967 | although x is a sentence |
| `CyclicGrammar.Generated` | tools/lemon/lemon.c:1855-1886 | lemon makes such a parser |
| `UselessSymbol.FreeButNeverHalts` | tools/lemon/lempar.c:915-967 | for S ::= E, E ::= I A, I ::= A, A ::= , A ::= V, V ::= E V I I e, lemon marks no conflict, and yet the parser never comes to an end on e |
| `UselessSymbol.NotUseful` | tools/lemon/lemon.c:1230-1289 | V is in use and derives no string of tokens |
| `UselessSymbol.Generated` | tools/lemon/lemon.c:1855-1886 | lemon makes such a parser, and reports no conflict |
| `TrimmedStates.StateMissing` | tools/lemon/lempar.c:556 | for S ::= C, C ::= C D, C ::= c, D ::= d E, E ::= , whatever the build, the state behind C d is kept but not in yy_shift_ofst, and looking up any token there fails |
| `TrimmedStates.DriverComes` | tools/lemon/lempar.c:915-967 | on the tokens c d the driver comes to that state, with the next token to be looked up there |
| `TrimmedStates.Generated` | tools/lemon/lemon.c:4857-4881 | lemon makes such arrays |
| `IdleCycles.PassFails` | tools/lemon/lemon.c:5279-5280 | for S ::= B, A ::= A, B ::= A, A ::= x without code, whatever the build, the assertion of the third pass fails |
| `IdleCycles.TwoPasses` | tools/lemon/lemon.c:5172-5251 | lemon comes to that point |
| `IdleCycles.PassSucceeds` | tools/lemon/lemon.c:5259-5285 | for S ::= B, B ::= A, A ::= A, A ::= x without code, all chains end, although there is a cycle |
| `IdleCycles.Generated` | tools/lemon/lemon.c:1855-1886 | lemon makes a parser of this one |
| `CrampedTable.ReadPastEnd` | tools/lemon/lemon.c:869-873 | for A ::= A, S ::= A, A ::= x, with x the last of 28 tokens, whatever the build, the last set overruns the allocation |
| `CrampedTable.Generated` | tools/lemon/lemon.c:1855-1886 | lemon makes such a table |
| `Engine.GoodStep` | tools/lemon/lempar.c:915-967 | a pass of the loop leads from where a run can be to where one can be, and fails no assertion |
| `Engine.GotoThere` | tools/lemon/lempar.c:614-638 | the state uncovered by a reduce has an entry for the left-hand side in the packed table, so the unchecked lookup is safe |
| `Engine.AutoRuleTop` | tools/lemon/lempar.c:549-556 | a pending reduce is by a nonempty rule, so the entry under its handle has a real state |
| `Engine.Engine.constructor` | tools/lemon/lempar.c:353-367 | the stack holds the bottom entry |
| `Engine.Engine.GrowStack` | tools/lemon/lempar.c:297-332 | a larger array with the same contents |
| `Engine.Engine.FindShiftAction` | tools/lemon/lempar.c:549-608 | with tables whose last kept state has an entry on a token, the packed lookup decodes to the driver's next action, and a state number above YY_MAX_SHIFT is itself the action |
| `Engine.Engine.Shift` | tools/lemon/lempar.c:685-716 | pushes the token, with the pending reduce for a SHIFTREDUCE, growing the stack if it must |
| `Engine.Engine.ReduceBy` | tools/lemon/lempar.c:742-789 | in place, the stack becomes that of the abstract reduce |
| `Engine.Engine.ErrorTurn` | tools/lemon/lempar.c:1048-1069 | without an error symbol the token is dropped, and at the end of input the stack is emptied |
| `Engine.GoodEnds` | tools/lemon/lempar.c:915-967 | wherever a run of the engine may be, the loop ends on the next token, if nothing in use comes back, or without conflicts and unproductive symbols |
| `Engine.Engine.Loop` | tools/lemon/lempar.c:915-1083 | the loop refines the abstract one, pass by pass, to its outcome |
| `Engine.Engine.Parse` | tools/lemon/lempar.c:879-1083 | a call of Parse refines the abstract loop on that token: same stack up to the renumbering of the states, same outcome |
| `Engine.RunSplits` | tools/lemon/lempar.c:879-967 | a halting run of a token stream splits into the runs of its first token and of the rest |
| `Engine.ParseAll` | tools/lemon/lempar.c:879-1083 | calling Parse for every token and then with 0, on a stream without a lap, ends and accepts only sentences, and exactly the language if the grammar has no conflict; there is no lap on any stream if nothing in use comes back, or without conflicts and unproductive symbols |
| `HashTable.FirstInsertWins` | tools/lemon/lemon.c:5654-5672 | after any inserts a key is there exactly if it was inserted, with the first data inserted for it |
| `HashTable.PushFront` | tools/lemon/lemon.c:5702-5711 | a node pushed at the head of its chain leaves every node on the chain of its own key |
| `HashTable.Rechain` | tools/lemon/lemon.c:5682-5694 | rechaining into a larger table puts every node, with its key and data, on its new chain |
| `HashTable.Table.Walk` | tools/lemon/lemon.c:5662-5672 | the walk along one chain finds the key exactly if the table has it |
| `HashTable.Table.Find` | tools/lemon/lemon.c:5715-5728 | the data of the key in the map the table stands for |
| `HashTable.Table.Double` | tools/lemon/lemon.c:5673-5700 | doubling changes the size and not the map |
| `HashTable.Table.Insert` | tools/lemon/lemon.c:5656-5712 | fails exactly on a present key, and otherwise adds the pair, doubling first if the table is full |
| `HashTable.Table.Clear` | tools/lemon/lemon.c:6067-6075 | the empty map at the same size |
| `HashTable.InsertAll` | tools/lemon/lemon.c:5855-5908 | any sequence of inserts, through any number of doublings, refines the first-insert-wins map |
| `Schedule.StepKeeps` | schedule/src/flow_schedule.c:76-121 | every atomic step of callback, completion, bootstrap thread, stop and clock keeps the invariant of the slot protocol |
| `Schedule.RunKeeps` | schedule/src/flow_schedule.c:229-274 | so it holds in every state of every interleaving |
| `Schedule.PublishKeeps` | schedule/src/flow_schedule.c:148-184 | the slot is held from reservation to completion, refusal or failure, and released once on each path |
| `Schedule.CompletionKeeps` | schedule/src/flow_schedule.c:76-102 | a completion commits its counters and its due time before it gives the slot back; it sets `completed` exactly if the publication failed or the limit is reached, and the due time to the delay after its reading of the clock otherwise |
| `Schedule.StopKeeps` | schedule/src/flow_schedule.c:358-376 | stop sets `completed` only when no callback runs and none can come |
| `Schedule.AtMostOneOutstanding` | schedule/src/flow_schedule.c:104-121 | at most one publication is outstanding and one callback inside, and the unsigned slot counter is 1 exactly while someone holds the slot, so it neither wraps nor leaks |
| `Schedule.SuccessesBounded` | schedule/src/flow_schedule.c:76-102 | the successes of a run, those counted before it taken off, never exceed repeat_limit, and one for one-shot |
| `Schedule.SubmissionsSpaced` | schedule/src/flow_schedule.c:229-268 | every call of publish is at least the delay after the arming and after each completion before it, up to saturation of the clock |
| `Schedule.SubmissionsAlternate` | schedule/src/flow_schedule.c:76-102 | between an accepted publication and the next call of publish lies its completion |
| `Schedule.NothingAfterCompleted` | schedule/src/flow_schedule.c:105-121 | once `completed` is set it stays set and publish is never called again in the run |
| `Schedule.NothingAfterStop` | schedule/src/flow_schedule.c:104-121 | once stop has begun and the callbacks that had passed their checks are gone, no callback calls publish, starts the timer or ends the run, in any interleaving |
| `Schedule.CompletedForReason` | schedule/src/flow_schedule.c:76-102 | in every reachable state `completed` is set only if the limit is reached, or a publication failed or was refused, a timer could not be started, or the source was stopped |
| `Schedule.EndingsComplete` | schedule/src/flow_schedule.c:229-274 | whatever of these happens, `completed` is set once callbacks, completions and the bootstrap thread are done |
| `Schedule.LimitEndsRun` | schedule/src/flow_schedule.c:84-89 | a run with as many successes as its limit is over once its completions are |
| `Schedule.DueAfterLatest` | schedule/src/flow_schedule.c:76-102 | the due time is the delay after the latest reading of the clock by arming or a successful completion, saturated, whenever nobody is about to store it |
| `Schedule.EarlyStartsAgain` | schedule/src/flow_schedule.c:249-260 | every callback of a one-shot timer within the native range that comes early starts the timer again, or ends the run where that fails; no other timer is started again |
| `Schedule.SucceedsAnyTimes` | schedule/src/flow_schedule.c:76-102 | for every number of successes up to the limit, or any number without one, some run has that many and no failure; it is over with as many as the limit and due again with fewer |
| `Schedule.DueCallbackPublishes` | schedule/src/flow_schedule.c:229-268 | from every reachable state in which the schedule is due and nobody holds the slot, an undisturbed callback gets to publish, so the slot is never lost |
| `Schedule.SomeRunPublishes` | schedule/src/flow_schedule.c:276-321 | for every configuration there is a run that arms the timer, waits and publishes |
| `Schedule.RestartKeeps` | schedule/src/flow_schedule.c:323-341 | a restart begins a run like the first if and only if no publication of the old one is outstanding; otherwise the invariant is broken |
| `Schedule.StopsBeforeCompletion` | schedule/src/flow_schedule.c:358-376 | for every configuration there is a run that is stopped while a publication is outstanding |
| `Schedule.LostForever` | schedule/src/flow_schedule.c:104-121 | once the unsigned counter has wrapped and nobody holds the slot, publish is never called again, in any interleaving |
| `Schedule.RestartLoses` | schedule/src/flow_schedule.c:323-341 | from a restart some interleaving gets there if and only if a publication of the old run is outstanding, wherever its completion stands |
| `Schedule.NeverPublishesAgain` | schedule/src/flow_schedule.c:76-102 | namely, if the old completion gives back its slot after the restart, before anyone has taken it |
| `Cron.SlicesCoverDelay` | schedule/src/flow_schedule.c:68-74 | the slice is positive and fits the native timer, exactly ceil(delay/max) slices cover the delay, and the overshoot is less than their number |
| `Cron.FloorMinute` | schedule/src/flow_schedule.c:58-62 | the multiple of 60 at or below the time, for negative times too |
| `Cron.EmitsFirstMatches` | schedule/src/flow_schedule.c:203-222 | a call publishes the first matching minutes of its window; all of them if it reaches the current minute, as many as allowed and not all if it is truncated |
| `Cron.EmitIs` | schedule/src/flow_schedule.c:203-222 | the loop publishes the first n matches of the window, n being exactly known from the window, the allowance, and the first publication or question that fails; and how it ends |
| `Cron.CursorAfter` | schedule/src/flow_schedule.c:193-200 | however a call ends, truncated and failed ones included, the cursor is at its minute, unless that is not ahead of the cursor, and then nothing changes |
| `Cron.CatchUpExact` | schedule/src/flow_schedule.c:186-227 | without an error it publishes the first 1+catch_up_limit matching minutes of the window and counts a truncation exactly if the window held more |
| `Cron.EachMinuteOnce` | schedule/src/flow_schedule.c:186-227 | over every sequence of calls outside minute 0, before the epoch too, the published minutes strictly increase and all match |
| `Cron.EachMinuteOnceIff` | schedule/src/flow_schedule.c:186-227 | over every sequence of calls from the epoch on, they strictly increase if and only if at most one call in minute 0 before the first later one publishes |
| `Cron.CleanRunMissesNothing` | schedule/src/flow_schedule.c:186-227 | outside minute 0, without truncation or failure, the published minutes are exactly the matching ones of the covered span |
| `Cron.EveryRunExact` | schedule/src/flow_schedule.c:186-227 | every run outside minute 0, truncated and failed calls included: each call publishes exactly the first matches behind the latest minute of the calls before it, as many as are allowed and succeed; the truncations are counted, and the cursor is at the latest minute |
| `Cron.CleanRunExact` | schedule/src/flow_schedule.c:186-227 | from the epoch on that is so if and only if at most one call in minute 0 before the first later one publishes, and no match lies between minute 0 and the window of that later one |
| `Cron.MinuteSkipped` | schedule/src/flow_schedule.c:196-200 | a call in minute 0 and one in minute 120 miss the matching minute 60 |
| `Cron.MinuteZeroTwice` | schedule/src/flow_schedule.c:196-200 | two calls in minute 0 publish it twice, because a cursor of 0 means none |
| `Cron.CronSource.AdvanceTo` | schedule/src/flow_schedule.c:186-227 | the in-place loop computes the specified call, returns the number of publications, reports an error exactly if the oracle or a publication failed, and moves the cursor to the minute of the call whatever happens, unless that is behind |
| `Reconcile.TargetsInBand` | observe/src/flow_observe.c:726-771 | every resize leads into the band, from inside it by at most one step and in the direction of the tick, and growing respects the system limit |
| `Reconcile.NeverBoth` | observe/src/flow_observe.c:733-764 | the two counters are never both set |
| `Reconcile.StepCounter` | observe/src/flow_observe.c:733-764 | a counter that stays set saw no resize and no contrary tick, and grew by at most one |
| `Reconcile.CounterBacked` | observe/src/flow_observe.c:733-764 | a counter is backed by that many ticks of its direction since the latest resize, with no contrary in-band tick among them |
| `Reconcile.ResizeBacked` | observe/src/flow_observe.c:733-764 | an in-band resize is backed by the required number of such ticks |
| `Reconcile.StampGrows` | observe/src/flow_observe.c:772-778 | a resize happens only a full cooldown after the stamp kept, whatever the clock did |
| `Reconcile.CooldownRespected` | observe/src/flow_observe.c:772-820 | any two resizes of a trace are a cooldown apart, with a backwards clock and with saturated arithmetic |
| `Reconcile.MemoryIs` | observe/src/flow_observe.c:733-764 | after every trace each counter is the number of ticks that have spoken for its direction since the latest resize, in-band tick that does not, or tick that had its target already, saturated, and the stamp is that of the latest resize |
| `Reconcile.ExactlyWhen` | observe/src/flow_observe.c:726-820 | every tick of every trace: it resizes, and to which target, if and only if the pool is there, enough ticks speak for it, the target differs, the cooldown is over, the load allows it and the command is applied; and exactly when it reports each other result |
| `Reconcile.RefusedPolicies` | observe/src/flow_observe.c:695-704 | the policies that are refused, by their numbers |
| `Reconcile.Controller.ReconcilePool` | observe/src/flow_observe.c:677-821 | the in-place controller computes the specified tick, about which `Reconcile.ExactlyWhen` and `Reconcile.MemoryIs` say all |
| `Observe.CallsConserved` | observe/src/flow_observe.c:119-158 | the calls of all series and the dropped ones are all calls; the names are distinct and at most max_stages |
| `Observe.SeriesNames` | observe/src/flow_observe.c:137-147 | the series are those of the first stored stages, in order |
| `Observe.SeriesExact` | observe/src/flow_observe.c:148-156 | calls, errors, total and longest duration of a series are those of its stage's calls since it was stored |
| `Observe.SeriesMeans` | observe/src/flow_observe.c:148-156 | counted on the log alone: its calls are the calls of its stage since it was stored, its errors the failed ones among them, its total the sum of their durations, its longest the longest of them |
| `Observe.TotalsMean` | observe/src/flow_observe.c:119-158 | the global counters are the number of all calls, of the failed ones, and of those whose stage had no series |
| `Observe.FirstStagesKept` | observe/src/flow_observe.c:137-147 | if storing never fails, only a full table drops a call |
| `Observe.SeriesTally` | observe/src/flow_observe.c:148-156 | and then a series holds all calls of its stage |
| `Observe.HistoryIsTail` | observe/src/flow_observe.c:864-882 | the history is the last min(total, max_events) events with contiguous numbers, and dropped plus kept is the total |
| `Observe.HistoryMeans` | observe/src/flow_observe.c:864-882 | with pushes that fail too: the history is the end of the records that went through, and every number given out is of a record kept, dropped or refused |
| `Observe.TakenNumbers` | observe/src/flow_observe.c:870-880 | each record has its event and the number of its attempt, and the numbers go up |
| `Observe.Observer.FindStage` | observe/src/flow_observe.c:108-117 | the first series with the name, or none |
| `Observe.Observer.StageComplete` | observe/src/flow_observe.c:119-158 | the in-place update computes the specified call, of which `Observe.SeriesMeans` and `Observe.TotalsMean` give the meaning |
| `Observe.Observer.RecordControlEvent` | observe/src/flow_observe.c:864-882 | the in-place update of the bounded queue, also when a push fails |
| `Csv.AppendCell` | codec/src/flow_codec.c:409-425 | appends the cell, quoted exactly if it holds a delimiter, a quote or a line break, its quotes doubled |
| `Csv.AppendRecord` | codec/src/flow_codec.c:427-439 | appends the cells of the columns, missing ones empty, with delimiters between and a line break after |
| `Csv.EmitRow` | codec/src/flow_codec.c:453-458 | the payload is the header record and the row record |
| `Csv.ReadCell` | codec/src/flow_codec.c:409-425 | a reader after section 2 of RFC 4180 reads a written cell back to its end, whatever it holds |
| `Csv.QuotedIfNeeded` | codec/src/flow_codec.c:409-425 | a cell is written in quotes exactly if that reader would not read it back without them |
| `Csv.RoundTrip` | codec/src/flow_codec.c:427-458 | that reader recovers exactly the cells of the header and of the row, missing ones empty, for every positive number of columns |
| `Csv.PayloadInjective` | codec/src/flow_codec.c:427-458 | payloads are equal exactly if header and row are |
| `Csv.NoColumns` | codec/src/flow_codec.c:427-439 | with no columns the payload is that of one empty column, so the number must be positive |
| `Reach.Pass` | codec/src/flow_codec.c:500-511 | a pass marks only stages a path leads to; it reports a change exactly with fewer unmarked stages, and otherwise no edge can extend the marks |
| `Reach.SourceReachesStage` | codec/src/flow_codec.c:490-516 | terminates, with true exactly if a path of zero or more edges leads from the source to the stage |
| `LengthPrefix.LoadLittle` | codec/src/flow_codec.c:231-236 | the number whose little-endian bytes these are |
| `LengthPrefix.LoadBig` | codec/src/flow_codec.c:238-243 | the number whose big-endian bytes these are |
| `LengthPrefix.NumberRoundTrip` | codec/src/flow_codec.c:231-243 | a number in range, written in either order, reads back |
| `LengthPrefix.PrefixBytes` | codec/src/flow_codec.c:231-243 | the byte of each weight stands where the byte order puts it |
| `LengthPrefix.TransformLength` | codec/src/flow_codec.c:245-269 | the result is that of exact arithmetic, although the sum of sizes wraps; only the error differs there |
| `LengthPrefix.FramesExact` | codec/src/flow_codec.c:245-269 | a payload yields a body exactly if it is the length of the body followed by the body, and the body is not too big |
| `LengthPrefix.ErrorsExact` | codec/src/flow_codec.c:245-269 | and exactly which payloads with a whole prefix are too big, malformed or unsupported |

## Left out

- Engine.Engine.Parse: for calls on which the loop ends (`Ends`), since otherwise the call does not return; `Engine.GoodEnds` and `Laps.EndsUnlessLap` say when that is.
- Engine.Engine.FindShiftAction: the engine is for tables whose last kept state has an entry on a token (`LastHasToken`); in the others an assertion of the source fails.
- Engine.ParseAll: for tables and streams that the engine can deal with, so with `LastHasToken` and without a lap; otherwise the source fails an assertion or does not return.
- Packed.ReportTables: when `nAction` ends past the allocation, the source reads memory that is not its own; the model stops with `ok` false there.
- ActionLists.FindActions: where a shift and a reduce tie on a token declared nonassoc (`NoTieAt`), the ERROR entry is not modelled.
- Conflicts.ResolveAll: for lists without such ties (`Untied`), as Conflicts.PairIs; of the others, Conflicts.TiedPair says what happens to the pair.
- ActionLists.RawTableComplete: for lists in which no action lost to another, so a shift preferred by precedence counts as a conflict here.
- UnitRules.SkipAllUnits: for lists whose chains end (`ChainsEnd`), as `UnitRules.SkipUnits`; on the others the source fails its assertion or does not end.
- EndlessChoice.LooplessIff: about free choices of rules. A table has one rule for a state and a token; for a given table `Laps.EndsUnlessLap` is exact.
- Generator.Generate: what is left out of ActionLists.FindActions and UnitRules.SkipAllUnits is left out here too (`NeverTied`, `UnitsEnd`), as it is in Generator.CompressAll.
- Compress.CompressTables: without a wildcard.
- Cron.EachMinuteOnceIff: for calls from the epoch on, as `Cron.CleanRunExact`; with calls before it, only runs without a call in minute 0 are covered.
- Cron.EveryRunExact: for runs without a call in minute 0.
- Packed.SortSets: `qsort` is modelled by the list sort; the comparisons leave it no choice.
- States.Builder.Find: searches the list of states; the hash table is modelled by itself, and masking with a power of two is written as a remainder.
- HashTable.Table.Insert: allocation does not fail, and the write-only back pointers are left out.
- Engine.Engine.GrowStack: memory does not run out, so the stack overflow branch is not there.
- Schedule.StepKeeps: steps of one run, from a start to any number of stops; a restart is a function on stopped states (`Restart`), taken as one step. Loads and stores interleave sequentially, whatever their memory order, and `last_status` is left out.
- Cron.CronSource.AdvanceTo: calls come one after another, and `last_status` is left out.
- Observe.Observer.StageComplete: a call is one step, so the moment between the global counters and the series is not visible; counters do not wrap; the global latency sums are left out.
- Reconcile.Controller.ReconcilePool: utilisation and system load are inputs, so their floating-point computation is not modelled, and the text of the command is left out.
- Csv.EmitRow: the limit on the row size, and `csv_parse_opts`, which is not part of this model.
- `%fallback`, `%wildcard`, the error symbol and its recovery, destructors and semantic actions.
- The grammar-file scanner, options, reports, code translation and the template of lemon: text processing with little to prove.
- `Rule_sort`, which is the idea of `msort` once more.
- DataBind, line frames and registration in the codecs; exporters, sinks and snapshots in the observer; manual start and shutdown of adapters: they would only add easy members.
- Inbox, durable buffer, keyed state, discovery, plugins, security and benchmarks.

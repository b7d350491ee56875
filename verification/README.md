# Verified models of DRAMsim3's channel controller and of parts of NEMU

This project models three groups of code and proves what they promise:

* **The DRAMsim3 channel controller**: transactions are accepted, merged, forwarded and
  moved into command queues, which reorder them against bank states, earliest-time tables
  and activation windows while refreshes come in between. `BankModel`, `ChannelModel`,
  `QueueModel` and `ControllerModel` are the specification on values. The classes
  `BankState`, `ChannelState`, `CommandQueue`, `Refresh` and `Controller` do the same work
  in place, with the loops of the source, and are proved against it. `ControllerRun` adds
  the history of a run (any interleaving of accepted transactions, ticks and returns), and
  `ControllerTheorems`, `RefreshProgress`, `RefreshDeadline`, `BankRefreshDeadline`,
  `RefreshOrder`, `RefreshFifo`, `TraceExact`, `DramTiming` and `DelayTheorems` hold the
  results about all runs and ticks. `CommandSelection`, `TickOutcome` and `TimingSheet` say
  over the queues, banks and raw parameters alone which command is chosen, what a tick
  decides, and which delay each pair of commands has. `AddressMapping` treats the address
  mapping.
* **The kconfig expressions, symbols and menus**: the optimiser over three-valued logic
  (`TristateExpr`, `ExprEquality`, `ExprKeys`, `ExprTransform`, `ExprJoin`, `ExprRules`,
  `ExprSlots`, `ExprDups`) with the comparisons of symbols by text or number (`StringValues`, `SymbolComparison`),
  the propagation of dependencies (`DependencyPropagation`, `DependencyTree`), the in-place
  restructuring of the menu tree and the stackless walk over it (`MenuOrder`,
  `MenuFinalize`), the recursive-dependency check (`SymbolCycles`), and the string escaper
  with its reader (`EscapeStrings`).
* **Pieces of NEMU**: the debugger's expression evaluator (`ExprEvaluator`) and its
  grammar (`ExprGrammar`), the list of
  mapped areas of user-mode emulation (`UserAreas`), and the host TLB (`HostTlb`).

`dafny verify dfyconfig.toml` checks the whole project.

## Main results

* In every run of the controller each read is answered with what the last write accepted
  before it stored; accepted transactions are conserved and delivered at most once; no
  exit is reached; all issued commands keep every delay that was pushed onto their banks,
  follow the row protocol and stay within the activation windows; over the tables of
  `timing.cc` every pair of commands keeps the delay of the data sheet, none waits longer,
  and no two bursts overlap on the data bus; the command a tick issues is exactly the first
  that nothing withholds, and a transaction is taken exactly when there is room; refreshes are requested in
  fixed rounds and issued in that order, isolated, and by a deadline; that of a bank moves
  only when there is a queue per bank, and then with commands to other banks of its rank.
* `expr_transform` keeps the value of an expression under every assignment, and so does
  `expr_eliminate_dups` unless a tristate symbol is compared with a constant such as "2",
  which is none of y, m and n but denotes one of their values; for one join of two operands
  it is exactly known for which constants the value changes. Both terminate and end in a
  normal form, and no two operands of one level are left equal or in a pair that the rules
  list; `expr_eq` and the superset test are exact where no y or n is an operand; over the whole tree the condition of an entry
  ends up worth the smallest of its own and those of all entries around it.
* Whatever the dependency tests answer, `menu_finalize` keeps the depth-first order,
  finalizes every entry once and leaves a proper tree, of which it is given exactly where
  each submenu ends; `conf_write` walks that tree once.
* `sym_check_deps` over all symbols reports an error exactly when there is a circle of
  symbols that depend on each other.
* The evaluator reports success exactly under a condition on the expression, and then
  delivers the value that the grammar gives it; escaping and reading back is the identity; the area list stays linked,
  sorted and disjoint, and it is exactly known when a mapping call succeeds; the TLB is
  indistinguishable from translating every access; the address mapping is a bijection
  between blocks and the coordinates below the sizes of their fields.

## Conventions and assumptions

* A configuration is sane in the sense of `Config.Valid`: there are ranks, bank groups and
  banks, the refresh interval is positive, and the mapping names existing banks
  (`AddressMapping.MappedConfigIsValid` discharges the last part). The size of a queue,
  `vector::capacity()` in the source, is `transQueueSize`. Self-refresh and the HBM dual
  command are off, and the refresh policy is a staggered one.
* The simulator carries no data. `ControllerRun` lets each accepted write carry a value and
  records what a read is answered with, so that runs can be compared with a plain memory.
* Multimaps of pending transactions are sequences; `find` returns the first entry of a key.
* `None` stands for the source's invalid command, for a null pointer, or for an exit of the
  process, as the comment at each member says.
* Kconfig assignments (`ValidEnv`) give boolean symbols n or y; y, m and n have their own
  values. A boolean or tristate symbol equals a constant exactly when the constant denotes
  its value (`Denoted`): its text is a number of that value, or the letter. `SymbolComparison`
  shows that the comparison of the source, by text or by number, gives such assignments; a
  tristate symbol is m only when modules are on, so that its text is m. A tristate symbol
  may thus equal two constants at once, "2" and "02", and then one rule of `expr_join_and`
  changes the value; `JoinSoundExactly` says exactly when.
* `ForeignComps` are the comparisons of tristate symbols with constants that are none of y,
  m and n but denote one of their values. Where an expression has none, its value is kept
  under every valid assignment; where it has some, under every assignment in which none of
  them equals its symbol (`Apart`). There are no list and no range nodes.
* The comment above `expr_trans_bool` (`expr.c:399-401`) speaks of a boolean `FOO`, while the
  code rewrites comparisons of tristate symbols; and the comment at `expr.c:569` names
  `a='m'` as the result of joining `a!='m'` and `a!='n'` where the code builds `a='y'`. In
  both places the model follows the code.
* `GetReadyCommand` of a rank answers with the first other command a bank needs, although
  a later bank may already be ready; the model follows the code.
* The host answers a mapping request in its own way (`accepts`), never maps beyond a limit
  below the end of the 64-bit address space, and the process aborts when it refuses.
* `isa_mmu_translate` is an arbitrary map of pages, the same for all kinds of access;
  physical memory consists of whole pages; devices are arbitrary state machines.

## Model

| member | source | states |
|---|---|---|
| `ExprEquality.EliminateYnKeepsValue` | libraries/NEMU/tools/kconfig/expr.c:316-397 | expr_eliminate_yn keeps the value under every assignment |
| `ExprEquality.EliminateYnFolds` | libraries/NEMU/tools/kconfig/expr.c:316-397 | it leaves no y or n operand of an and/or, and changes nothing when there is none |
| `ExprEquality.EliminateYnShrinks` | libraries/NEMU/tools/kconfig/expr.c:316-397 | the expression gets smaller whenever there is one, and compares nothing new |
| `ExprEquality.EliminateEq1Common` | libraries/NEMU/tools/kconfig/expr.c:150-219 | what __expr_eliminate_eq strikes from both sides is one common value: each side is that value combined with what is left of it |
| `ExprEquality.EqViaEliminateEq` | libraries/NEMU/tools/kconfig/expr.c:271-283 | the equality test of two and/or nodes accepts exactly when eliminating common operands leaves the same constant on both sides |
| `ExprEquality.ExprEqSound` | libraries/NEMU/tools/kconfig/expr.c:252-303 | expressions that expr_eq calls equal have the same value under every assignment |
| `ExprEquality.SupersetTest` | libraries/NEMU/tools/kconfig/expr.c:221-241 | if expr_eliminate_eq leaves the second expression as constant y, the first never exceeds the second in tristate order, for every mix of and/or shapes (the superset test of menu_finalize) |
| `ExprKeys.SupersetExactly` | libraries/NEMU/tools/kconfig/expr.c:221-241 | where no y or n is an operand, the test succeeds exactly when the first expression is a conjunction that has every operand of the second |
| `ExprKeys.PassSubtracts` | libraries/NEMU/tools/kconfig/expr.c:142-190 | a pass of __expr_eliminate_eq takes out of each level the operands it has in common with the other, each as often as both have it |
| `ExprKeys.EqualKeys` | libraries/NEMU/tools/kconfig/expr.c:246-303 | where no y or n is an operand, expr_eq holds exactly of two expressions that differ only in the order and grouping of the operands inside each level |
| `ExprKeys.EqualsItself` | libraries/NEMU/tools/kconfig/expr.c:252-303 | expr_eq is reflexive, whatever the expression |
| `ExprKeys.OrderMattersWithY` | libraries/NEMU/tools/kconfig/expr.c:246-303 | with y among the operands expr_eq is not transitive, and two orders of the same three operands are told apart |
| `ExprTransform.Transform` | libraries/NEMU/tools/kconfig/expr.c:694-849 | expr_transform terminates although De Morgan steps are transformed again: its result never weighs more, NOT counting double and a comparison twice a symbol |
| `ExprTransform.TransformNormalizes` | libraries/NEMU/tools/kconfig/expr.c:694-849 | the result is in negation normal form: NOT only over symbols that are not y, m or n, no boolean symbol compared with y, m or n |
| `ExprTransform.TransformFixpoint` | libraries/NEMU/tools/kconfig/expr.c:694-849 | the expressions left unchanged are exactly the normal forms |
| `ExprTransform.TransformIdempotent` | libraries/NEMU/tools/kconfig/expr.c:694-849 | transforming twice is transforming once |
| `ExprTransform.TransformPreservesValue` | libraries/NEMU/tools/kconfig/expr.c:694-849 | the value is unchanged under every assignment |
| `ExprTransform.TransBoolRemoves` | libraries/NEMU/tools/kconfig/expr.c:402-426 | expr_trans_bool leaves no test of a tristate symbol against n by !=, and changes an expression exactly when there is one |
| `ExprTransform.TransBoolRounded` | libraries/NEMU/tools/kconfig/expr.c:402-426 | where no rewritten comparison stands under NOT, expr_trans_bool keeps the value once m is rounded up to y |
| `ExprTransform.NormalFormHasNoNegatedRewrite` | libraries/NEMU/tools/kconfig/expr.c:402-426 | a normal form meets that condition |
| `ExprTransform.TransBoolNeedsNormalForm` | libraries/NEMU/tools/kconfig/expr.c:402-426 | without it the rounding fails: !(FOO!=n) becomes !FOO, and a tristate FOO set to m tells the two apart |
| `ExprJoin.JoinOrSound` | libraries/NEMU/tools/kconfig/expr.c:431-493 | every rule of expr_join_or yields the value of the disjunction |
| `ExprJoin.JoinAndExact` | libraries/NEMU/tools/kconfig/expr.c:495-587 | the rules of expr_join_and yield the value of the conjunction except in exactly one case: a=B and a!=C are joined while a equals both constants |
| `ExprJoin.JoinExact` | libraries/NEMU/tools/kconfig/expr.c:431-587 | both rule sets together |
| `ExprJoin.ApartNeverClashes` | libraries/NEMU/tools/kconfig/expr.c:540-553 | the case cannot arise under an assignment in which a equals no constant other than y, m and n that the operands compare it with |
| `StringValues.Spellings` | libraries/NEMU/tools/kconfig/expr.c:998-1028 | "2", "02" and "0x2" denote y and "1" denotes m, while "08", "0xa", "abc" and "3" denote no tristate value |
| `SymbolComparison.CompareWithConstant` | libraries/NEMU/tools/kconfig/expr.c:1066-1083 | comparing a boolean or tristate symbol with a constant gives equality exactly when the text of the constant is a number of the same value, or the same letter |
| `SymbolComparison.EnvOfIsValid` | libraries/NEMU/tools/kconfig/expr.c:1030-1102 | the assignments that the values and texts of the symbols give, by the comparison of the source, are valid ones |
| `SymbolComparison.AliasingValues` | libraries/NEMU/tools/kconfig/expr.c:1066-1083 | two constants that denote the same tristate value, such as "2" and "02" or "2" and y, equal one symbol at once under some values of the symbols |
| `ExprJoin.ClashIsAliasing` | libraries/NEMU/tools/kconfig/expr.c:540-553 | the case arises for constants of one tristate value only, and for those exactly when a has that value |
| `ExprJoin.JoinSoundExactly` | libraries/NEMU/tools/kconfig/expr.c:540-553 | so a join keeps the value under all values of the symbols if and only if it does not merge a=B with a!=C for different constants B and C that denote the same tristate value |
| `ExprJoin.SpellingsAlias` | libraries/NEMU/tools/kconfig/expr.c:540-553 | it does so for "2" and "02" and for "2" and y, but not for "1" and "2" or for "abc" and "3" |
| `ExprJoin.JoinForeign` | libraries/NEMU/tools/kconfig/expr.c:431-587 | a join compares nothing with a further such constant |
| `ExprJoin.JoinShrinks` | libraries/NEMU/tools/kconfig/expr.c:431-587 | a join is a single operand, so a pass that joins anything has fewer operands left |
| `ExprJoin.JoinKeepsNormalForm` | libraries/NEMU/tools/kconfig/expr.c:431-587 | joining normal forms gives a normal form |
| `ExprRules.JoinFollowsRules` | libraries/NEMU/tools/kconfig/expr.c:431-587 | two operands are merged exactly when expr_eq takes them for equal, into the first, or when they make, in either order, one of the pairs listed over a boolean or tristate symbol, into what the list gives for the pair |
| `ExprRules.UnjoinedAreUnrelated` | libraries/NEMU/tools/kconfig/expr.c:431-587 | operands that are not merged differ, by more than order where no y or n is in the way, and make none of the listed pairs |
| `ExprSlots.GetSet` | libraries/NEMU/tools/kconfig/expr.c:596-622 | writing through one slot pointer and reading through it, or through a pointer beside it, in the same expression |
| `ExprSlots.SetOther` | libraries/NEMU/tools/kconfig/expr.c:596-622 | writing one operand slot leaves every other operand slot, aliased into the same tree, as it was |
| `ExprDups.JoinSameValue` | libraries/NEMU/tools/kconfig/expr.c:624-658 | replacing one operand by the neutral constant and another by their join keeps the value of the whole, under every assignment unless a tristate is compared with another constant that denotes a tristate value, as "2" does |
| `ExprDups.JoinStep` | libraries/NEMU/tools/kconfig/expr.c:624-658 | such a step also leaves a constant operand behind, so that there are fewer operands once constants are folded |
| `ExprDups.SettledIsDistilled` | libraries/NEMU/tools/kconfig/expr.c:664-686 | an expression with no applicable rule has no two equal operands in any level, nor two that make a listed pair |
| `ExprDups.Simplifier.JoinOperands` | libraries/NEMU/tools/kconfig/expr.c:627-648 | the neutral constant goes into the first slot and the join into the second, or nothing changes |
| `ExprDups.Simplifier.EliminateDups1` | libraries/NEMU/tools/kconfig/expr.c:596-662 | the aliased pairwise pass, in place: value and normal form kept, only the addressed slot written, every join counted, and a pass that counts nothing has looked at every pair |
| `ExprDups.Simplifier.EliminateDups` | libraries/NEMU/tools/kconfig/expr.c:664-686 | expr_eliminate_dups terminates, keeps the value under every assignment when no tristate is compared with another constant that denotes a tristate value (and otherwise where none equals such a constant), leaves in no level two equal operands, or two that make one of the pairs listed in ExprRules, restores trans_count, never adds an operand, and leaves y or n as an operand only in an expression it does not change |
| `DependencyPropagation.RewriteMCapsM` | libraries/NEMU/tools/kconfig/menu.c:82-105 | after rewrite_m a plain m is worth no more than MODULES: with modules m, without n |
| `DependencyPropagation.Narrow` | libraries/NEMU/tools/kconfig/menu.c:356-361 | the pipeline rewrite_m, expr_transform, expr_alloc_and, expr_eliminate_dups yields the smaller of the inherited and the own value, in normal form and with no two operands left to merge |
| `DependencyPropagation.Inherit` | libraries/NEMU/tools/kconfig/menu.c:400-407 | the same for a property of a symbol: exact for tristate symbols; for all others up to the rounding of m to y, and with no test of a tristate symbol against n left |
| `DependencyPropagation.Entry.Process` | libraries/NEMU/tools/kconfig/menu.c:377-420 | one property receives the condition; a select or imply adds symbol && condition to the target by or, and touches no other symbol |
| `DependencyPropagation.Entry.PropagateToProperties` | libraries/NEMU/tools/kconfig/menu.c:376-421 | all properties of an entry: each condition as above, foreign properties untouched, and the reverse dependency of every target is the old one or the greatest contribution, even when several properties share a target |
| `DependencyPropagation.Entry.Propagate` | libraries/NEMU/tools/kconfig/menu.c:351-422 | the loop body over the children of a menu |
| `DependencyTree.PropagateTree` | libraries/NEMU/tools/kconfig/menu.c:345-432 | over the whole tree: every entry is given the finished condition of its parent before it passes its own on |
| `DependencyTree.ConditionIsTheSmallest` | libraries/NEMU/tools/kconfig/menu.c:345-432 | so the condition of an entry ends up worth the smallest of its own and those of all entries around it, m capped at MODULES |
| `DependencyTree.SmallestIsLeast` | libraries/NEMU/tools/kconfig/expr.h:47-49 | the smallest of a line of conditions is below each of them and is one of them |
| `MenuOrder.NestLinksOfEnds` | libraries/NEMU/tools/kconfig/menu.c:498-502 | how the links of the parent and of the last entry differ before and after a submenu is made |
| `MenuOrder.NestLinksOfOthers` | libraries/NEMU/tools/kconfig/menu.c:498-502 | no other downward or sideward link differs |
| `MenuOrder.NestParents` | libraries/NEMU/tools/kconfig/menu.c:492-496 | exactly the top-level entries of the submenu get a new parent |
| `MenuOrder.LinksBefore` | libraries/NEMU/tools/kconfig/menu.c:427-504 | changes below an entry leave the links of everything before it alone |
| `MenuFinalize.Finalizer.Flatten` | libraries/NEMU/tools/kconfig/menu.c:575-584 | flattening, in place: the children of an if (or promptless) entry follow it in its own list, their parent links point one level up, the depth-first order stays |
| `MenuFinalize.Finalizer.AbsorbSiblings` | libraries/NEMU/tools/kconfig/menu.c:461-496 | following siblings are finalized one by one and name their new parent, up to the first that does not depend on it |
| `MenuFinalize.Finalizer.AutoSubmenu` | libraries/NEMU/tools/kconfig/menu.c:461-502 | and are then moved into the submenu, which reaches exactly as far as planned, with all links right again |
| `MenuFinalize.Finalizer.FinalizeChildren` | libraries/NEMU/tools/kconfig/menu.c:431-432 | the recursion over children, each finalized once in order although finalizing one may swallow the next |
| `MenuFinalize.Finalizer.FlattenChildren` | libraries/NEMU/tools/kconfig/menu.c:506-585 | afterwards no entry below without a prompt has children, and every entry with a prompt reaches as far as before |
| `MenuFinalize.Finalizer.MenuFinalize` | libraries/NEMU/tools/kconfig/menu.c:306-585 | menu_finalize terminates, finalizes every entry of its (possibly grown) subtree exactly once in depth-first order, keeps that order, leaves next, list and parent links those of a tree, leaves children to no entry without a prompt, and lets every entry with one reach exactly as far as its children or the run of depending siblings behind it |
| `MenuFinalize.ClimbStep` | libraries/NEMU/tools/kconfig/confdata.c:899-911 | climbing from an entry without a sibling reaches an ancestor whose subtree ends at the same place |
| `MenuFinalize.Walk` | libraries/NEMU/tools/kconfig/confdata.c:868-912 | the stackless walk visits every entry below the root exactly once, in depth-first order, and stops |
| `MenuFinalize.FinalizeThenWalk` | libraries/NEMU/tools/kconfig/menu.c:306-585 | both together: each entry is finalized once and then visited once, in the original order, and where each submenu of the final tree ends is given by the depths before and the dependency tests |
| `MenuFinalize.KeepsItsMenu` | libraries/NEMU/tools/kconfig/menu.c:314-502 | an entry that had children keeps exactly its descendants, and one that is no symbol gains none |
| `SymbolCycles.OrderedIsAcyclic` | libraries/NEMU/tools/kconfig/symbol.c:1250-1279 | symbols with dependencies that can be ordered so that each depends on earlier ones only have no dependency cycle |
| `SymbolCycles.EdgeBack` | libraries/NEMU/tools/kconfig/symbol.c:1250-1258 | a dependency back into the stack closes a cycle made of what the stack holds above it |
| `SymbolCycles.EdgesSpec` | libraries/NEMU/tools/kconfig/symbol.c:1130-1204 | the search follows a symbol from another exactly if it stands in the other's dependencies, reverse dependencies or implications, in the condition of a property that is no choice, select or imply, or in the value of a default |
| `SymbolCycles.CyclesAgree` | libraries/NEMU/tools/kconfig/symbol.c:1130-1204 | so the cycles of the graph are the circles of symbols that depend on each other in this way |
| `SymbolCycles.InProps` | libraries/NEMU/tools/kconfig/symbol.c:1190-1204 | the properties are followed one by one |
| `SymbolCycles.DepChecker.FindCycle` | libraries/NEMU/tools/kconfig/symbol.c:1041-1070 | the reported symbols are a cycle, so the unexpected case of the report is never reached |
| `SymbolCycles.DepChecker.CheckDeps` | libraries/NEMU/tools/kconfig/symbol.c:1250-1279 | the search terminates, gives back the CHECK flags and the stack as they were, and any symbol it returns lies on a cycle |
| `SymbolCycles.DepChecker.CheckExprDeps` | libraries/NEMU/tools/kconfig/symbol.c:1130-1163 | the same for the symbols of an expression, left to right |
| `SymbolCycles.DepChecker.CheckSymDeps` | libraries/NEMU/tools/kconfig/symbol.c:1165-1211 | the same for everything one symbol depends on |
| `SymbolCycles.DepChecker.CheckAll` | libraries/NEMU/tools/kconfig/parser.y:514-517 | over all symbols of the hash table errors are counted exactly when there is a circle of symbols that depend on each other, and no CHECK flag is left |
| `ExprEvaluator.RootIsDominated` | libraries/NEMU/src/utils/expr.c:153-190 | on the tokens of a tree the dominated operator is the tree's root: weakest binding, rightmost among equal binary operators, leftmost among unary ones |
| `ExprEvaluator.SpellingDeterminesTree` | libraries/NEMU/src/utils/expr.c:137-151 | precedence, left association and brackets leave one tree only to a token sequence |
| `ExprEvaluator.MismatchedFails` | libraries/NEMU/src/utils/expr.c:162-173 | tokens in which a bracket closes unopened and one opens later are refused, however many outer brackets are stripped first |
| `ExprEvaluator.SplitFails` | libraries/NEMU/src/utils/expr.c:212-214 | stripping outer brackets that do not belong together always ends in failure, never in a wrong value |
| `ExprEvaluator.EvalSpelling` | libraries/NEMU/src/utils/expr.c:192-250 | what eval answers on the tokens of a tree: value, failure or abort |
| `ExprEvaluator.EvaluatorSound` | libraries/NEMU/src/utils/expr.c:192-250 | success is reported exactly when the tree has a value (registers known, no zero divisor) and no operator's spelling starts and ends with brackets of its own; the value is then the tree's 64-bit value |
| `ExprEvaluator.BracketedSumFails` | libraries/NEMU/src/utils/expr.c:212-214 | so (a)+(b) fails although it has a value |
| `ExprEvaluator.MarkingRestores` | libraries/NEMU/src/utils/expr.c:266-294 | marking minus and star by the token before them recovers the unary operators of every tree |
| `ExprEvaluator.FindDominatedOp` | libraries/NEMU/src/utils/expr.c:153-190 | the loop over the token array computes the dominated operator |
| `ExprEvaluator.EvalRange` | libraries/NEMU/src/utils/expr.c:192-250 | the recursion over index ranges of the array terminates on any tokens and computes the same outcome |
| `ExprEvaluator.MarkUnary` | libraries/NEMU/src/utils/expr.c:266-294 | the in-place pass marks every token by its predecessor |
| `ExprEvaluator.Evaluate` | libraries/NEMU/src/utils/expr.c:252-297 | from the tokenizer's output for a tree to the answer |
| `ExprGrammar.Texts` | libraries/NEMU/src/utils/expr.c:137-151 | every expression of the grammar (unary; * / %; + -; == !=; and; or; each binary level associating to the left) is spelled by one bracketed tree |
| `ExprGrammar.Denotes` | libraries/NEMU/src/utils/expr.c:226-248 | the value of that tree is what the grammar says, operator by operator: wrapping sums, differences and products, quotients with a remainder below the divisor, truth values |
| `ExprGrammar.TextEvaluates` | libraries/NEMU/src/utils/expr.c:192-297 | from the tokens of an expression of the grammar eval succeeds exactly when the expression has a value and no operator stands between brackets that seem to enclose it; it then delivers that value |
| `ExprGrammar.EvaluateExpression` | libraries/NEMU/src/utils/expr.c:252-297 | the same in place, on the token array |
| `UserAreas.AddAfter` | libraries/NEMU/src/user/memory.c:42-48 | a node inserted after another keeps the list doubly linked and circular |
| `UserAreas.Unlink` | libraries/NEMU/src/user/memory.c:134-138 | unlinking a node does too |
| `UserAreas.InsertKeepsApart` | libraries/NEMU/src/user/memory.c:114-129 | an area put between its neighbours keeps the list sorted and disjoint |
| `UserAreas.CollidesExactly` | libraries/NEMU/src/user/memory.c:64-71 | the overlap test is right for requests that do not wrap around the address space, and for wrapping ones exactly when their end passes the area's start |
| `UserAreas.WrappingPasses` | libraries/NEMU/src/user/memory.c:64-71 | a wrapping request passes the test over the kernel's area |
| `UserAreas.FitsOverlapsNone` | libraries/NEMU/src/user/memory.c:62-78 | an area that fits behind its left neighbour overlaps no area of the list |
| `UserAreas.SpanIsUnique` | libraries/NEMU/src/user/memory.c:54-60 | a place and positive size identify one area |
| `UserAreas.AddressSpace.constructor` | libraries/NEMU/src/user/memory.c:100-112 | init_mem builds a well-formed list |
| `UserAreas.AddressSpace.NewFixArea` | libraries/NEMU/src/user/memory.c:62-78 | a fixed request is placed exactly when no area fails the overlap test and it starts strictly between two areas |
| `UserAreas.PassesIsClear` | libraries/NEMU/src/user/memory.c:62-71 | for a request that does not wrap around that means that it overlaps no area |
| `UserAreas.GapIsExact` | libraries/NEMU/src/user/memory.c:80-89 | there is room behind an area exactly when a new one right behind it stays clear of the next one |
| `UserAreas.FirstGapIsLowest` | libraries/NEMU/src/user/memory.c:80-89 | the first gap is the lowest place at which the area overlaps no other, from dyn_start on |
| `UserAreas.RoomIsExact` | libraries/NEMU/src/user/memory.c:152-158 | an area can grow in place exactly when it then stays clear of the next one |
| `UserAreas.AddressSpace.NewDynArea` | libraries/NEMU/src/user/memory.c:80-89 | a dynamic request gets the first gap behind dyn_start that fits, the room behind the last area reaching to the end of the address space |
| `UserAreas.AddressSpace.Mmap` | libraries/NEMU/src/user/memory.c:114-129 | user_mmap succeeds exactly when the host agrees and the request fits; it then adds one area to a list that stays linked, sorted and disjoint, where asked (fixed) or in the first gap (dynamic) |
| `UserAreas.AddressSpace.Munmap` | libraries/NEMU/src/user/memory.c:131-143 | user_munmap removes exactly the area of that place and size, or aborts when there is none |
| `UserAreas.AddressSpace.Mremap` | libraries/NEMU/src/user/memory.c:145-169 | user_mremap succeeds exactly when there is such an area, the host agrees, and the area can grow in place or be moved; it is resized in place when the room to the next area suffices, otherwise moved to the first gap, the old one removed |
| `HostTlb.HitIsTranslation` | libraries/NEMU/src/memory/host-tlb.c:73-79 | a hit reads where translating would |
| `HostTlb.FilledIsOk` | libraries/NEMU/src/memory/host-tlb.c:50-59 | what a slow access caches is valid for the whole page |
| `HostTlb.FlushedIsOk` | libraries/NEMU/src/memory/host-tlb.c:27-36 | flushing the changed page, or everything, leaves no stale entry in either table |
| `HostTlb.StoredIsLoaded` | libraries/NEMU/src/memory/host-tlb.c:38-71 | physical memory keeps what is stored: the bytes written are read back, all others stay |
| `HostTlb.Tlb.ReadSlowPath` | libraries/NEMU/src/memory/host-tlb.c:38-59 | a slow read fills the slot of its page if that lies in physical memory, and no other slot |
| `HostTlb.Tlb.Flush` | libraries/NEMU/src/memory/host-tlb.c:27-36 | what a flush does to each entry |
| `HostTlb.Tlb.Read` | libraries/NEMU/src/memory/host-tlb.c:73-79 | a read returns, and changes, what a freshly translated read would, hit or miss, memory or device; afterwards the slot of a page in physical memory holds that page |
| `HostTlb.Tlb.Write` | libraries/NEMU/src/memory/host-tlb.c:81-89 | a write likewise |
| `HostTlb.Tlb.Run` | libraries/NEMU/src/memory/host-tlb.c:27-89 | any interleaving of in-page accesses and translation changes, each followed by its flush, is indistinguishable from translating every access |
| `EscapeStrings.UnescapedEscaped` | libraries/NEMU/tools/kconfig/confdata.c:261-280 | reading inverts writing, whatever follows the closing quote |
| `EscapeStrings.BodyPlaces` | libraries/NEMU/tools/kconfig/symbol.c:896-913 | the writer puts a backslash before each quote and backslash and writes every character in its place, and nothing else |
| `EscapeStrings.ReadsExactly` | libraries/NEMU/tools/kconfig/confdata.c:261-275 | the texts that read as v are exactly those that spell v with backslashes before any of its characters, among them all special ones |
| `EscapeStrings.ResultSize` | libraries/NEMU/tools/kconfig/symbol.c:882-894 | the computed buffer size is the length of the result plus the terminator |
| `EscapeStrings.EscapeStringValue` | libraries/NEMU/tools/kconfig/symbol.c:875-916 | the writer fills that buffer to the last byte with the escaped string |
| `EscapeStrings.ReadStringValue` | libraries/NEMU/tools/kconfig/confdata.c:261-280 | the in-place reader: not set without an opening quote, invalid without a closing one, otherwise the unescaped value |
| `EscapeStrings.WriteThenRead` | libraries/NEMU/tools/kconfig/symbol.c:875-916 | the round trip for every string without a terminator |
| `AddressMapping.SetAddressMapping` | libraries/DRAMsim3/src/configuration.cc:347-404 | a mapping string is accepted exactly when it has twelve characters naming all six fields; each field then starts where the ones below it end |
| `AddressMapping.LogBase2` | libraries/DRAMsim3/src/common.cc:50-57 | the loop computes the largest power of two not above its argument |
| `AddressMapping.BitsArePartitioned` | libraries/DRAMsim3/src/configuration.cc:374-404 | each bit of a block number below the mapped size belongs to exactly one field |
| `AddressMapping.FieldAt` | libraries/DRAMsim3/src/configuration.cc:33-42 | shifting and masking extracts the field |
| `AddressMapping.CoordinateIsQuotient` | libraries/DRAMsim3/src/configuration.cc:33-42 | a coordinate is a quotient of the address by a power of two, modulo a power of two |
| `AddressMapping.FieldsByName` | libraries/DRAMsim3/src/configuration.cc:347-404 | under an accepted mapping string the field of each name holds the bits of the address above those of the block offset and of the fields named behind it |
| `AddressMapping.MappingIsInjective` | libraries/DRAMsim3/src/configuration.cc:33-42 | two addresses below the mapped size with equal coordinates lie in the same block, for every order of the fields |
| `AddressMapping.MappingIsOnto` | libraries/DRAMsim3/src/configuration.cc:33-42 | every combination of coordinates below the sizes of the fields is reached |
| `AddressMapping.ReachedExactly` | libraries/DRAMsim3/src/configuration.cc:33-42 | a coordinate below the size of its field is reached by an address below the mapped size, any other by none: of three ranks the last is never used |
| `AddressMapping.CoordinatesInRange` | libraries/DRAMsim3/src/dram_system.cc:31-34 | every coordinate exists, whether or not the counts are powers of two, and GetChannel agrees with the mapping |
| `AddressMapping.MappedConfigIsValid` | libraries/DRAMsim3/src/configuration.cc:347-404 | so a channel over such a mapping meets what the controller model asks of its configuration |
| `BankModel.ServiceOf` | libraries/DRAMsim3/src/bankstate.cc:22-165 | answered again and again, a request gets through: at most a precharge and an activation before an access, nothing on a row hit, at most a precharge before a refresh |
| `BankModel.NoExit` | libraries/DRAMsim3/src/bankstate.cc:22-94 | no transaction or refresh request makes a bank outside self-refresh exit |
| `BankModel.ReadyIsLegal` | libraries/DRAMsim3/src/bankstate.cc:22-94 | a command that a bank lets through is due, and legal in its state |
| `BankModel.PushAllBounds` | libraries/DRAMsim3/src/bankstate.cc:167-171 | after pushing a table every entry of it is a lower bound on the bank's earliest time |
| `BankModel.BankState.GetReadyCommand` | libraries/DRAMsim3/src/bankstate.cc:22-94 | the object answers as the specification |
| `BankModel.BankState.UpdateState` | libraries/DRAMsim3/src/bankstate.cc:96-165 | the object changes state as the specification, or exits |
| `BankModel.BankState.UpdateTiming` | libraries/DRAMsim3/src/bankstate.cc:167-171 | one earliest time rises to at least the given one |
| `ChannelModel.ReadyIsLegalCommand` | libraries/DRAMsim3/src/channel_state.cc:76-115 | a command that the channel lets through is legal on every bank it covers: rank commands need all banks, activations a free window |
| `ChannelModel.LegalUpdates` | libraries/DRAMsim3/src/channel_state.cc:117-138 | a legal command never makes a bank exit |
| `ChannelStateClass.ChannelState.ReadyRankCommand` | libraries/DRAMsim3/src/channel_state.cc:76-101 | the nested scan for a rank command: the first other command needed, or the command itself once all banks are ready |
| `ChannelStateClass.ChannelState.GetReadyCommand` | libraries/DRAMsim3/src/channel_state.cc:76-115 | as the specification |
| `ChannelStateClass.ChannelState.UpdateOtherBanksSameBankgroupTiming` | libraries/DRAMsim3/src/channel_state.cc:199-212 | the loop pushes the table to exactly the other banks of the group |
| `ChannelStateClass.ChannelState.UpdateOtherBankgroupsSameRankTiming` | libraries/DRAMsim3/src/channel_state.cc:214-229 | to exactly the other groups of the rank |
| `ChannelStateClass.ChannelState.UpdateOtherRanksTiming` | libraries/DRAMsim3/src/channel_state.cc:231-248 | to exactly the other ranks |
| `ChannelStateClass.ChannelState.UpdateSameRankTiming` | libraries/DRAMsim3/src/channel_state.cc:250-263 | to the whole rank |
| `ChannelStateClass.ChannelState.UpdateActivationTimes` | libraries/DRAMsim3/src/channel_state.cc:282-295 | one expired entry at most leaves the window, the new one joins |
| `ChannelStateClass.ChannelState.UpdateTiming` | libraries/DRAMsim3/src/channel_state.cc:140-186 | together: every bank receives the table of its relation to the command |
| `ChannelStateClass.ChannelState.UpdateState` | libraries/DRAMsim3/src/channel_state.cc:117-138 | bank states and the refresh queue after a command |
| `ChannelStateClass.ChannelState.UpdateTimingAndStates` | libraries/DRAMsim3/src/channel_state.cc:265-269 | both, or exit |
| `QueueModel.FirstReadySpec` | libraries/DRAMsim3/src/command_queue.cc:178-196 | the command a queue yields is legal now and comes from one of its entries |
| `QueueModel.GetCommandSpec` | libraries/DRAMsim3/src/command_queue.cc:36-54 | the command chosen comes from an open queue; a read or write leaves that queue, nothing else does, and no lookup exits |
| `QueueModel.FinishRefreshSpec` | libraries/DRAMsim3/src/command_queue.cc:56-75 | a refresh in progress yields only precharges of its banks or the request itself |
| `CommandSelection.SearchAnswers` | libraries/DRAMsim3/src/command_queue.cc:178-196 | the search in a queue answers with the first entry that nothing withholds: no deadline or full window, no older command for the bank or waiting row hit before a precharge, no read of its place before a write |
| `CommandSelection.CommandSelected` | libraries/DRAMsim3/src/command_queue.cc:36-54 | the answer is that entry of the first open queue that has one, in turn behind the current queue; the entry leaves if it is a read or write and nothing else moves; there is no answer, and no change, exactly when no open queue has one |
| `CommandSelection.FoundIsSelected` | libraries/DRAMsim3/src/command_queue.cc:198-208 | the entry erased is the entry selected |
| `CommandSelection.QueuesApart` | libraries/DRAMsim3/src/command_queue.cc:164-171 | two banks share a queue exactly if they are one bank, or with a queue per rank in one rank |
| `CommandSelection.ClosedQueues` | libraries/DRAMsim3/src/command_queue.cc:146-162 | a refresh closes exactly the queues of the banks it covers |
| `CommandSelection.RefreshStepTaken` | libraries/DRAMsim3/src/command_queue.cc:56-75 | a refresh precharges the first open bank, by group and bank, whose precharge is due, goes out if every bank is closed and due, and otherwise waits; the queues open again exactly when it goes out |
| `CommandQueueClass.CommandQueue.ArbitratePrecharge` | libraries/DRAMsim3/src/command_queue.cc:77-110 | a precharge goes only for the oldest command of its bank and not while row hits wait, four hits excepted |
| `CommandQueueClass.CommandQueue.HasRWDependency` | libraries/DRAMsim3/src/command_queue.cc:218-230 | whether an earlier read of the same place waits in the queue |
| `CommandQueueClass.CommandQueue.GetFirstReadyInQueue` | libraries/DRAMsim3/src/command_queue.cc:178-196 | the scan with its early exits computes the answer of SearchAnswers |
| `CommandQueueClass.CommandQueue.EraseRWCommand` | libraries/DRAMsim3/src/command_queue.cc:198-208 | the first entry of that address and type goes, or the process exits |
| `CommandQueueClass.CommandQueue.GetCommandToIssue` | libraries/DRAMsim3/src/command_queue.cc:36-54 | the round robin over all queues, skipping those a refresh keeps closed, computes the answer of CommandSelected |
| `CommandQueueClass.CommandQueue.GetRefQIndices` | libraries/DRAMsim3/src/command_queue.cc:146-162 | the queues of the rank or bank being refreshed |
| `CommandQueueClass.CommandQueue.FinishRefresh` | libraries/DRAMsim3/src/command_queue.cc:56-75 | closing the queues, the next step, opening them again |
| `CommandQueueClass.CommandQueue.AddCommand` | libraries/DRAMsim3/src/command_queue.cc:127-136 | a command joins its queue exactly when there is room |
| `RefreshClass.Refresh.ClockTick` | libraries/DRAMsim3/src/refresh.cc:21-29 | every interval one request joins the queue and the counters move on |
| `RefreshClass.Refresh.IterateNext` | libraries/DRAMsim3/src/refresh.cc:58-82 | which rank or bank comes next |
| `RefreshOrder.RequestsInOrder` | libraries/DRAMsim3/src/refresh.cc:21-82 | n ticks make one request per interval, none at tick 0, and the k-th is for rank k, or for the bank whose group runs fastest, then bank, then rank |
| `RefreshOrder.EveryBankOnce` | libraries/DRAMsim3/src/refresh.cc:64-73 | each bank has its turn exactly once per round of all banks |
| `RefreshOrder.EveryRankOnce` | libraries/DRAMsim3/src/refresh.cc:60-62 | each rank exactly once per round of all ranks |
| `RefreshOrder.RoundsRepeat` | libraries/DRAMsim3/src/refresh.cc:58-82 | and the rounds repeat |
| `InFlight.AddKeepsMatched` | libraries/DRAMsim3/src/controller.cc:161-195 | accepting a transaction keeps pending addresses and queued entries matched one for one |
| `InFlightSteps.ScheduleKeepsMatched` | libraries/DRAMsim3/src/controller.cc:197-227 | moving a transaction into its command queue keeps them matched, and keeps writes behind the reads of their address |
| `InFlightSteps.IssueKeepsMatched` | libraries/DRAMsim3/src/controller.cc:229-266 | issuing a command picked from the queues finds what it retires, and keeps them matched |
| `InFlightSteps.WriteIssuesAlone` | libraries/DRAMsim3/src/command_queue.cc:218-230 | a write that goes out has no pending read of its address, in split and unified mode |
| `ControllerTick.TickKeepsState` | libraries/DRAMsim3/src/controller.cc:65-149 | one tick never exits nor indexes outside a vector, issues at most one command, legal on every bank it covers, and keeps every invariant |
| `ControllerTick.QueueCommandIsolated` | libraries/DRAMsim3/src/command_queue.cc:36-54 | a command from an open queue touches no bank under refresh |
| `TickOutcome.TakenWhenRoom` | libraries/DRAMsim3/src/controller.cc:151-195 | a transaction is taken exactly when its queue has a free place; what it joins and whether it is answered at once is given by the pending reads and writes of its address |
| `TickOutcome.OldestCompleteReturns` | libraries/DRAMsim3/src/controller.cc:45-63 | the entry handed back is the first complete one |
| `TickOutcome.SplitInOrder` | libraries/DRAMsim3/src/controller.cc:236-251 | an issued read answers all pending reads of its address in order of arrival and leaves the others in theirs |
| `TickOutcome.ReadsComplete` | libraries/DRAMsim3/src/controller.cc:236-251 | what a tick answers: a read command all pending reads of its address, oldest first, complete after the read delay; any other command nothing |
| `TickOutcome.ScheduledFromSplit` | libraries/DRAMsim3/src/controller.cc:197-227 | with a read queue and a write buffer: writes are drained once the buffer is full, or holds more than eight while no command is queued, for as many writes as it held then, reads are scheduled otherwise; the first transaction whose command queue has room moves, and a write with a pending read of its address ends the drain |
| `TickOutcome.ScheduledFromUnified` | libraries/DRAMsim3/src/controller.cc:197-227 | with one queue: its first transaction whose command queue has room moves |
| `TickOutcome.TickSchedules` | libraries/DRAMsim3/src/controller.cc:144-149 | every tick ends with that one scheduling step |
| `TickOutcome.DrainIsBounded` | libraries/DRAMsim3/src/controller.cc:197-227 | in every run no more writes are left to drain than the write buffer holds |
| `TickOutcome.TickDecides` | libraries/DRAMsim3/src/controller.cc:65-93 | a tick issues the next step of the oldest refresh if that is possible, and otherwise what the search of the queues selects that the refresh leaves open |
| `ControllerRun.StepKeeps` | libraries/DRAMsim3/src/controller.cc:65-227 | accepting, ticking and returning keep the invariant of runs |
| `ControllerRun.EveryRun` | libraries/DRAMsim3/src/controller.cc:65-227 | every run of any events from the initial state reaches a state satisfying it, without ever exiting |
| `ControllerTheorems.ReadsSeeTheLastAcceptedWrite` | libraries/DRAMsim3/src/controller.cc:161-266 | memory ordering: a read's answer is what the last write accepted before it stored, despite merging, forwarding and out-of-order issue |
| `ControllerTheorems.WritesWaitForReads` | libraries/DRAMsim3/src/controller.cc:214-219 | a write is issued only when no read of its address is pending |
| `ControllerTheorems.NothingLostOrDuplicated` | libraries/DRAMsim3/src/controller.cc:45-63 | conservation: accepted equals delivered plus queued for return plus pending reads; nothing is delivered twice; pending addresses match the queued transactions and commands |
| `TraceSafety.StepTimingSafe` | libraries/DRAMsim3/src/channel_state.cc:140-186 | a legal command respects every delay that earlier commands pushed onto its banks |
| `TraceSafety.WindowStep` | libraries/DRAMsim3/src/channel_state.cc:271-295 | dropping at most one expired entry per activation keeps the window the tail of all activations, and the activations spread |
| `TraceSafety.StepRows` | libraries/DRAMsim3/src/bankstate.cc:96-165 | columns are accessed in open rows only, activations and refreshes find closed banks |
| `TraceExact.ReadyWhenDelaysAreOver` | libraries/DRAMsim3/src/bankstate.cc:167-171 | in every run a bank is due for a command exactly when all delays that issued commands pushed for it are over, and it has counted the reads and writes since its row was opened |
| `TraceExact.ActivationsHeldBackExactly` | libraries/DRAMsim3/src/channel_state.cc:271-314 | in every run the window lets a rank be activated exactly when its fourth last activation lies tFAW back, and in GDDR the thirty-second last t32AW |
| `ControllerTheorems.IssuedCommandsKeepAllDelays` | libraries/DRAMsim3/src/channel_state.cc:140-263 | timing safety: any two issued commands of a run are as far apart as every pushed entry asks, on the same bank, group, rank and across ranks |
| `ControllerTheorems.IssuedCommandsFollowTheRows` | libraries/DRAMsim3/src/bankstate.cc:96-165 | every command of a run meets the row protocol |
| `ControllerTheorems.ActivationsAreSpread` | libraries/DRAMsim3/src/channel_state.cc:271-314 | no five activations of a rank within tFAW, nor 33 within t32AW for GDDR; the stored windows stay sorted and within 4 (32) |
| `RefreshProgress.FrontStays` | libraries/DRAMsim3/src/channel_state.cc:44-75 | requests are served first in, first out |
| `RefreshProgress.RefreshIsIsolated` | libraries/DRAMsim3/src/command_queue.cc:36-75 | once a refresh is the oldest request, the banks it covers receive only precharges until it is issued |
| `RefreshFifo.RefreshesFollowTheRounds` | libraries/DRAMsim3/src/channel_state.cc:44-75 | in every run the k-th refresh issued is the k-th of the fixed rounds, those waiting are the next ones, and one has been requested per interval |
| `RefreshDeadline.ScanOnSchedule` | libraries/DRAMsim3/src/channel_state.cc:76-115 | when a bank is due the scan precharges one, and at the last moment it lets the refresh through |
| `RefreshDeadline.RefreshIsIssuedInTime` | libraries/DRAMsim3/src/command_queue.cc:56-75 | a rank refresh is issued by the rank's largest precharge or refresh deadline plus tPPD (at least one cycle) per bank plus tRP, whatever else happens |
| `BankRefreshDeadline.BankRefreshIsIssuedInTime` | libraries/DRAMsim3/src/command_queue.cc:56-75 | a bank refresh is issued by the bank's larger precharge or refresh deadline plus tRP; only with a queue per bank may a command to another bank of its rank be issued before |
| `DramTiming.ComputeLocals` | libraries/DRAMsim3/src/timing.cc:13-74 | the locals that a single bank group overwrites |
| `DramTiming.BuildTiming` | libraries/DRAMsim3/src/timing.cc:7-265 | the constructor assigns the tables written out per command type, and they hold exactly the delays of the sheet in TimingSheet, which gives each one over the raw parameters |
| `DramTiming.BuiltFollowsSheet` | libraries/DRAMsim3/src/timing.cc:7-265 | every entry of the tables is a delay of the sheet, and every delay of the sheet is an entry |
| `DelayTheorems.DelaysAreKept` | libraries/DRAMsim3/src/timing.cc:76-265 | in every run two commands keep the delay that the sheet asks between them |
| `DelayTheorems.ReadyWhenSheetAllows` | libraries/DRAMsim3/src/timing.cc:76-265 | and no command waits longer than that: a bank is due exactly when every delay of the sheet after an issued command is over |
| `DelayTheorems.BankTimes` | libraries/DRAMsim3/src/timing.cc:20-49 | on one bank of a run: AL+CWL+burst+tWR from a write to a precharge, that plus tRP from a write with precharge to an activation, AL+tRTP and AL+burst+tRTP+tRP for reads, tRCD-AL (tRCDRD, tRCDWR in GDDR and HBM) from an activation to a read or write, tRAS, tRAS+tRP and tRP |
| `DelayTheorems.RankTimes` | libraries/DRAMsim3/src/timing.cc:13-74 | on two banks of one rank: the write-to-read time with tWTR_L or tWTR_S by group, the read-to-write time, tCCD and tRRD by group, the short ones when there is one group only |
| `DelayTheorems.BankRefreshSparesItsBank` | libraries/DRAMsim3/src/timing.cc:224-242 | a refresh of one bank holds the other banks of its rank back for tRFC and its own bank for nothing: tRFCb is built into a table that is never pushed for it |
| `DramTiming.DataBusNeverOverlaps` | libraries/DRAMsim3/src/timing.cc:76-180 | two bursts never overlap on the data bus, whatever banks, ranks and directions |
| `DramTiming.NoRunOverlapsBursts` | libraries/DRAMsim3/src/timing.cc:76-180 | so they do not in any run |
| `DramTiming.RowTimes` | libraries/DRAMsim3/src/timing.cc:183-250 | tRC, tRRD, tRP and tRFC hold between the commands of every run |
| `DramTiming.TablesAreSpaced` | libraries/DRAMsim3/src/timing.cc:203-222 | the tables meet what the refresh deadline asks, with tPPD in GDDR and LPDDR4 and one cycle elsewhere |
| `DramTiming.TablesAreBankSpaced` | libraries/DRAMsim3/src/timing.cc:203-209 | they meet what the bank deadline asks |
| `DramTiming.ActivationPutsBankRefreshOff` | libraries/DRAMsim3/src/timing.cc:193-201 | that exception is real: every activation elsewhere in the rank puts a bank refresh off by tRC |
| `ControllerClass.EraseFirstMatch` | libraries/DRAMsim3/src/controller.cc:242-249 | taking the first pending read of an address out leaves the others in order |
| `ControllerClass.Controller.constructor` | libraries/DRAMsim3/src/controller.cc:13-43 | the initial state |
| `ControllerClass.Controller.WillAcceptTransaction` | libraries/DRAMsim3/src/controller.cc:151-159 | whether there is room in the queue that the transaction would join |
| `ControllerClass.Controller.AddTransaction` | libraries/DRAMsim3/src/controller.cc:161-195 | accepting, in place: merge, forward or queue, invariant kept |
| `ControllerClass.Controller.ReturnDoneTrans` | libraries/DRAMsim3/src/controller.cc:45-63 | the oldest finished entry leaves the return queue |
| `ControllerClass.Controller.ScheduleTransaction` | libraries/DRAMsim3/src/controller.cc:197-227 | draining thresholds, the first transaction with room, the read-before-write wait |
| `ControllerClass.Controller.AnswerReads` | libraries/DRAMsim3/src/controller.cc:234-249 | all pending reads of an address are completed by one command, in order |
| `ControllerClass.Controller.IssueCommand` | libraries/DRAMsim3/src/controller.cc:229-266 | what a command retires and changes, or exit |
| `ControllerClass.Controller.ClockTick` | libraries/DRAMsim3/src/controller.cc:65-149 | one cycle of the objects is one step of the specification, never exits and keeps the invariant of runs |

## Left out

- Self-refresh: the controller asks a self-refreshing bank for an exit command on which the bank aborts, so nothing useful holds with `enable_self_refresh` on; idle counters serve only it.
- The HBM dual command: its second command leaves the queue before it is known to be issued, so conservation does not hold with it.
- RANK_LEVEL_SIMULTANEOUS refresh: its loop stops after the first rank.
- Starvation freedom of scheduling: a full write buffer whose first acceptable write waits on an unscheduled read re-arms draining every tick.
- `same_rank[REFRESH_BANK]`: the table is built but never pushed, so tRFCb holds nothing back (`DelayTheorems.BankRefreshSparesItsBank`).
- ControllerTheorems.ReadsSeeTheLastAcceptedWrite: says what an answer is whenever there is one, not that there will be one.
- RefreshDeadline.RefreshIsIssuedInTime: bounds the event time of a rank refresh in runs that go on that long; it covers rank refreshes.
- BankRefreshDeadline.BankRefreshIsIssuedInTime: with a queue per bank it gives no bound while other banks of the rank are served, because every activation there moves the deadline (`ActivationPutsBankRefreshOff`).
- DramTiming.DataBusNeverOverlaps: asks for the parameters of a real device (`Sane`), since the tables say nothing sensible for negative delays.
- Clock counters do not wrap around at 2^64; deadlines below zero do, as `Deadline` says.
- Statistics, power, thermal model, tracing, the HMC crossbar and the ideal memory system: printing and floating point.
- Expression nodes are not freed or shared between expressions: in-place rewriting is modelled on whole trees, with slot pointers as paths into them.
- `expr_trans_compare`: swapping EQUAL and UNEQUAL under NOT is wrong at m; its uses only feed the dependency tests, whose answers are left open.
- ExprKeys.EqualKeys: asks that no y or n is an operand; with one among the operands expr_eq tells orders apart (`OrderMattersWithY`), and for which it does so is not worked out.
- The dependency tests of automatic submenus: one test per pair of an entry and a later sibling is given (`Test`); of its parts only the superset test is modelled.
- Choice symbols: their types, properties and place in the cycle check, and warnings.
- MenuFinalize.Finalizer.MenuFinalize: the dependency part of the loop over children is in `DependencyPropagation` and `DependencyTree`, the link part here; the two are not combined in one method.
- DependencyTree.PropagateTree: works on the conditions of a tree as values; the update in place of one entry and its properties is `Entry.Propagate`.
- Symbol evaluation, the kconfig parser, prompts, file output.
- Completeness of the evaluator: outer brackets are stripped without matching them; `EvaluatorSound` says exactly when that makes it fail. Tokenizing by regular expressions, `strtoul` and the limit of 32 tokens are not part of this model.
- UserAreas.AddressSpace.Mmap: memory contents (`memcpy` in `user_mremap`), protections, flags and file descriptors are not modelled.
- UserAreas.AddressSpace.NewFixArea: a request that wraps around the address space may pass the overlap test although it overlaps (`WrappingPasses`); it is then refused by the host.
- TLB permissions, accesses that cross pages, mode switches, byte order within a word.
- The translation-block cache, devices, system calls, drivers and scripts.

# Models and proofs for the assembly optimiser, the assembler, LLL and four analyses

This project models, in Dafny, the parts of the compiler whose whole promise is that meaning is
kept, and proves that they keep it.

**The machine** (`Words`, `WordLaws`, `Instructions`, `Items`, `Machine`, `Memory`). Assembly items run on a
stack machine with 256-bit words, storage, byte memory and symbolic tags. Opcode meanings follow
Appendix H.2 of the Ethereum Yellow Paper; `WordLaws` states what division, shifts and bit operations
mean without the functions that compute them. What lies outside a contract is a parameter of a run:
answers of instructions that read the outside (`query`), the effect of calls, logs and copies
(`effect`), values known only after assembly (`pushed`), positions of tags (`address`) and the tags
that may be entered (`entry`). Runs are bounded by the number of jumps taken, so that "ends in the
same outcomes" and "runs on without end" can both be stated.

**The optimiser.** `Rewriting` shows once for all when piecewise rewriting keeps the behaviour of a
whole program. `Peephole` and `JumpdestRemover` are instances of whole-program statements. Common
subexpression elimination is built up from the list of simplification rules (`Rules`, with `RuleMatching`
for when they apply and `RuleSizes` for why applying them ends), the table of equivalence classes seen as a straight-line
program (`Semantics`, `ExpressionClasses`), the symbolic state (`Knowledge`, `KnownState`), the
question which stores may be left out (`Replay`), the code generator (`Generation`, `Availability`,
`CodeGenerator`, and `Once` for what it computes only once) and the eliminator (`Cse`, `CsePass`). Block
deduplication works on a machine whose tags are labels (`Blocks`, `Labels`, `Deduplicator`) and is then
tied to the concrete machine. `Optimiser` puts one round of these passes together, and `Rounds` repeats
the rounds until nothing changes. `FreeGas` says what the passes make of the instruction FREEGAS.
`Constants` covers other representations of constants.

**The assembler** (`Encoding`, `Layout`, `Widths`, `Assembler`, `AssembledCode`, `FinalAssembly`,
`NarrowAssemblies`) goes from items to bytes and back through the decoder.

**LLL** (`LllEval`, `LllCode`, `LllRules`, `LllCorrect`, `LllCompiler`) is a complete small compiler
with a direct evaluator as its reference.

**Independent algorithms**: linearisation of base contracts (`Linearisation`), unassigned return
variables (`Worklist`, with the graphs of functions in `FunctionFlow` and the ways through their
statements in `FunctionWays`), cycle detection (`CycleDetector`) and edit distance (`EditDistance`).

Objects that the original updates in place are classes here with the same fields; loops are loops
with invariants. Errors that the original throws are `Failure` results. Statements about a class
hold for every initial stack, storage and memory.

Where code and documentation differ, the code was followed:

- The comment in `ControlFlowAnalyzer.cpp:122-123` says that the work list ends because there are
  finitely many variables. That is not the reason: a node erases what it kills from its own set, so the
  same variable can be news to it again, and on a circle with several entries (`CircleNeverEnds`) the
  loop runs for ever. It ends because loops in functions have a single entry: `EndsIffCalm` gives the
  exact condition for all graphs, and `FunctionsEnd` shows that the flow of every function meets it.
- FREEGAS makes the contract pay the fee (`docs/freegas.rst:15-28`, `docs/opcodes.rst:76`), but the
  instruction table lists it without side effects (`Instruction.cpp:220`), so that common subexpression
  elimination drops it, also from the end of every `freegas` function (`ContractCompiler.cpp:617-618`).
  The machine here gives it an effect on the outside like any other instruction with side effects.
  `GetOptimizedItems` says exactly when a block keeps its meaning, `ChargeIsLost` is a block that does
  not, and `ChargesAside` says what is kept all the same. No other pass loses a charge.
- The code generator throws `ItemNotAvailableException` for elements of the initial stack that it cannot
  reach, with a comment on what to do when that happens (`CommonSubexpressionEliminator.cpp:223-228`). In
  the optimiser it never happens in the blocks modelled here (`InputsArePresent`), so the model has no such
  error.
- The second MULMOD rule (`RuleList.h:82`) is wrong; it can never be the first to match.
- `Assembly.cpp:514-516` starts the width search for an assembly with sub-assemblies at the largest tag
  position instead of its number of bytes. The result is an overestimate and stays correct.
- References to data and sub-assemblies may be wider than the address size the estimate was made
  for (`Assembly.cpp:532`). Then tags can lie too far behind for the bytes reserved for them
  (`CrowdedRefused`), and places of sub-assemblies can be truncated (`TruncatedReference`). The contracts
  of the assembler state exactly when this happens; `RoomForData` is a condition under which it does not.
- A push opcode given as a plain operation is emitted without an operand, and the decoder then reads
  following items as one; `DecodesExactly` says exactly when decoding gives back the items.


## Model

| member | source | states |
|---|---|---|
| `Rewriting.PiecewiseCorrect` | libevmasm/Assembly.cpp:423-488 | A program rewritten piece by piece, tags kept in place, ends in exactly the outcomes of the original from every state in which the original cannot get stuck, and diverges where it diverges; jumps and loops included |
| `Peephole.RewriteCorrect` | libevmasm/PeepholeOptimiser.cpp:99-300 | Each of the ten rewriting methods is a replacement that does the same wherever the replaced window does not fail, or falls through to the tag right behind it |
| `Peephole.TagConjunctionsCorrect` | libevmasm/PeepholeOptimiser.cpp:228-250 | Dropping an AND behind a pushed tag is right when tag positions stay below 2^32 |
| `Peephole.PassCorrect` | libevmasm/PeepholeOptimiser.cpp:321-338 | One pass keeps the behaviour of the whole program and its tags |
| `Peephole.RewriteIsLighter` | libevmasm/PeepholeOptimiser.cpp:99-300 | Every rewriting method makes its window strictly lighter in a fixed weighting, also where it lengthens the code |
| `Peephole.PassIsLighter` | libevmasm/PeepholeOptimiser.cpp:321-338 | An accepted pass strictly lowers the weight of the program, whichever of size, bytes or POP count it was accepted for |
| `Peephole.SettledIff` | libevmasm/PeepholeOptimiser.cpp:99-300 | A pass changes nothing exactly where no value is discarded as soon as it is pushed or computed, no two equal swaps or constants stand side by side, no SWAP1 stands before a commutative operation or a comparison, nothing follows a jump away, and no jump to the next item and no empty mask is left |
| `Peephole.PeepholeOptimiser.Optimise` | libevmasm/PeepholeOptimiser.cpp:321-338 | One pass over the items in place, accepted exactly if it is a gain in size, or in bytes or POP count at equal size |
| `Peephole.OptimiseUntilStable` | libevmasm/Assembly.cpp:423-431 | Repeating the pass ends for every item list, after at most as many rounds as weight is lost; the stable result behaves like the original and is not longer |
| `JumpdestRemoval.JumpdestRemover.Optimise` | libevmasm/JumpdestRemover.cpp:31-53 | Exactly the tags that are neither pushed nor referenced from outside are removed in place; foreign tags used as labels are an error |
| `JumpdestRemoval.RemovalCorrect` | libevmasm/JumpdestRemover.cpp:31-53 | Removing them keeps the behaviour of every run that enters only pushed or outside-referenced tags |
| `JumpdestRemoval.PeepholeThenRemoval` | libevmasm/PeepholeOptimiser.cpp:72-338 | A peephole pass followed by the removal of unreferenced jump destinations behaves like the original program |
| `Rules.RulesSound` | libevmasm/RuleList.h:51-383 | Every rule of the list except the shadowed one gives its result the value of its pattern, for all words and all matched constants |
| `WordLaws.SignedDivision` | libevmasm/RuleList.h:65-67 | Folding SDIV and SMOD rounds towards zero: the remainder is smaller than the divisor and has the sign of the dividend, division by zero is zero, and the least number divided by -1 wraps to itself |
| `WordLaws.TruncatesUnique` | libevmasm/RuleList.h:37-45 | Quotient and remainder are determined by that |
| `WordLaws.BitwiseBits` | libevmasm/RuleList.h:76-78 | AND, OR and XOR act on each bit |
| `WordLaws.ShiftsRoundDown` | libevmasm/RuleList.h:95-99 | Shifts to the right divide by the power of two and round down, SAR over the signed values |
| `WordLaws.SignExtendIs` | libevmasm/RuleList.h:83-93 | SIGNEXTEND gives the only word whose signed value fits the kept bits and agrees with them |
| `Rules.FirstMatchSound` | libevmasm/SimplificationRules.cpp:43-58 | The first rule that matches an expression yields the same 256-bit value under every valuation of the classes |
| `Rules.ShadowedRuleIsWrong` | libevmasm/RuleList.h:81-82 | The second MULMOD rule is wrong on its own, with a concrete input; only rule order makes the list sound |
| `Matching.MatchIff` | libevmasm/SimplificationRules.cpp:109-125 | A pattern matches exactly the expressions that have its shape under some binding of the match groups |
| `Matching.FirstMatchIff` | libevmasm/SimplificationRules.cpp:43-58 | The rule found is the first one whose pattern has the shape of the expression, and none is found exactly if there is none |
| `Matching.ConstantsFold` | libevmasm/RuleList.h:60-99 | Every operation of the list whose arguments are all constants is replaced by the constant it gives |
| `Rules.MatchExprValue` | libevmasm/SimplificationRules.cpp:96-183 | A successful match with same-class match groups binds groups so that the pattern has the value of the matched expression |
| `Rules.ByteMasked` | libevmasm/RuleList.h:79 | Folding BYTE by shifting and masking gives the byte of the word as the virtual machine defines it |
| `Rules.SignExtendMasked` | libevmasm/RuleList.h:83-93 | Folding SIGNEXTEND by testing and setting bits gives the sign-extended word of the virtual machine |
| `RuleSizes.RuleListShrinks` | libevmasm/RuleList.h:51-383 | No rule makes an expression larger, a rule that keeps the size lowers the rank of its form, and every rule that moves constants outwards comes behind the rule that catches constants in its place |
| `RuleSizes.GuardMatches` | libevmasm/RuleList.h:248-362 | Where an argument is constant, the rule that combines constants matches wherever the rule that moves them would |
| `RuleSizes.FirstMatchShrinks` | libevmasm/SimplificationRules.cpp:43-58 | What the first matching rule asks to be built has a lower measure than the expression it is applied to |
| `Classes.ExpressionClasses.Find` | libevmasm/ExpressionClasses.cpp:58-93 | For every expression the nested application of rules ends; the class found denotes the value of the expression in every initial state and is recorded for it: nothing recorded before changes, a recorded expression gives its recorded class with the table untouched, and a new one gives the class of what the first matching rule makes of it, or else a new class |
| `Classes.ExpressionClasses.FindAt` | libevmasm/ExpressionClasses.cpp:58-93 | The same with the measure that goes down in nested calls: nothing larger than the expression is recorded on the way, so the expression is still new when its class is entered; the class found is not larger than the expression |
| `Classes.ExpressionClasses.TryToSimplify` | libevmasm/ExpressionClasses.cpp:184-210 | A rule is applied exactly if one matches, and gives the class of what the first such rule makes of the expression, which has the meaning of the expression; loads and stores are never simplified |
| `Classes.ExpressionClasses.Rebuild` | libevmasm/ExpressionClasses.cpp:212-221 | Rebuilding the result of a rule ends and gives the class recorded for the right-hand side, with its value, not larger than it; all its match groups are bound |
| `Classes.RecordedOnce` | libevmasm/ExpressionClasses.cpp:74-93 | However many lookups lie in between, looking up the same expression again gives the same class, whatever the order of commutative arguments |
| `Classes.ExpressionClasses.KnownNonZero` | libevmasm/ExpressionClasses.cpp:146-149 | The answer is whether the class found for the comparison with zero is the constant zero; a positive one means non-zero in every initial state |
| `Classes.ExpressionClasses.KnownToBeDifferent` | libevmasm/ExpressionClasses.cpp:127-131 | The answer is whether the class found for the difference is known non-zero; a positive one means different in every initial state |
| `Classes.ExpressionClasses.KnownToBeDifferentBy32` | libevmasm/ExpressionClasses.cpp:133-139 | The answer is whether the difference is a constant outside -31 to 31; a positive one means at least 32 apart in every initial state, in spite of the wrap-around |
| `Classes.ApartWords` | libevmasm/ExpressionClasses.cpp:133-139 | A difference that is at least 32 modulo 2^256 and whose sum with 32 does not wrap keeps the words at least 32 apart as numbers |
| `KnownStates.KnownState.FeedItem` | libevmasm/KnownState.cpp:85-178 | After every feedable sequence each recorded stack, storage and memory entry denotes the concrete value that the sequence without its FREEGAS leaves, in every initial state. The knowledge after one item is stated exactly: which elements are looked up, which class is on top, and that nothing else is forgotten than what a store may overwrite |
| `KnownStates.KnownState.StoreInStorage` | libevmasm/KnownState.cpp:286-312 | A store keeps only knowledge that survives it and forgets nothing else; it reports no operation exactly where the value is known to be there, and otherwise one with the next number and the class of the store |
| `KnownStates.KnownState.StoreInMemory` | libevmasm/KnownState.cpp:323-343 | The same for memory, where slots must be at least 32 bytes apart |
| `KnownStates.KnownState.LoadFromStorage` | libevmasm/KnownState.cpp:314-321 | A known slot gives its recorded class and changes nothing; another one gives the class of a load at this point and is remembered, and the word is the one a load gives in every state that agrees |
| `KnownStates.KnownState.KeepStorage` | libevmasm/KnownState.cpp:296-302 | The entries kept survive the store; an entry is dropped only if its value differs and the difference of the slots is not known to be non-zero |
| `KnownStates.KnownState.KeepMemory` | libevmasm/KnownState.cpp:329-334 | The entries kept survive the store; an entry is dropped only if the difference of the addresses is not a constant outside -31 to 31 |
| `Knowing.RedundantStore` | libevmasm/KnownState.cpp:291-293 | Storing the value that is known to be there is a no-op of the concrete machine |
| `Knowing.NewStore` | libevmasm/KnownState.cpp:286-343 | After a concrete store, the surviving knowledge and the new entry agree with the new storage and memory |
| `MemoryLaws.ReadApart` | libevmasm/KnownState.cpp:329-334 | Byte memory: a word written at least 32 bytes away leaves a word unchanged |
| `MemoryLaws.ReadBack` | libevmasm/KnownState.cpp:336-342 | A word written to byte memory reads back |
| `MemoryLaws.WriteSame` | libevmasm/KnownState.cpp:325-327 | Writing a word where it already is leaves every byte of memory as it was |
| `Replaying.LoadNeeded` | libevmasm/CommonSubexpressionEliminator.cpp:235-299 | When the dependencies of a load are respected, executing only some of the stores still gives the load its value |
| `Replaying.FinalWorld` | libevmasm/CommonSubexpressionEliminator.cpp:145-152 | If every store left out is overwritten by executed stores, storage and memory end as in the original block |
| `CodeGenerators.CodeGenerator.AddDependencies` | libevmasm/CommonSubexpressionEliminator.cpp:216-300 | The dependency relation becomes closed under arguments, every load gets the stores it depends on, and whatever is recorded is needed in the end by a root; the only error is an element of the initial stack that is not available |
| `CodeGenerators.CodeGenerator.AddGroupDependencies` | libevmasm/CommonSubexpressionEliminator.cpp:244-298 | For a load and a group of stores to one slot, the latest earlier store is a dependency unless the slots are known to be independent, and only then |
| `CodeGenerators.CodeGenerator.GenerateClassElement` | libevmasm/CommonSubexpressionEliminator.cpp:302-419 | Generated code puts the class on the modelled stack and executes its store if it is one; finished heights below the bound stay untouched, and no value that is still wanted is lost. For a class that is wanted or has its turn the only error is a stack that is too deep |
| `CodeGenerators.CodeGenerator.AppendDup` | libevmasm/CommonSubexpressionEliminator.cpp:467-476 | A DUP adds the class at the chosen height on top, in items and in the modelled stack alike; the only error is a depth beyond 16, and it happens exactly then |
| `CodeGenerators.CodeGenerator.AppendOrRemoveSwap` | libevmasm/CommonSubexpressionEliminator.cpp:478-503 | A SWAP exchanges the two heights in the modelled stack; in the items it cancels with an equal one in front of it and is appended otherwise; it fails exactly for depths beyond 16 and heights above the top, each with its own error |
| `CodeGenerators.CodeGenerator.RemoveStackTopIfPossible` | libevmasm/CommonSubexpressionEliminator.cpp:453-465 | A POP is emitted exactly if the top element is not needed any more |
| `CodeGenerators.CodeGenerator.PlaceTargets` | libevmasm/CommonSubexpressionEliminator.cpp:173-192 | Placing the targets from below never disturbs those already placed, and no target has been lost when it is asked for |
| `CodeGenerators.CodeGenerator.GenerateSequenced` | libevmasm/CommonSubexpressionEliminator.cpp:154-171 | All sequenced classes are computed in their order, and every store left out is overwritten; no load or store is asked for out of turn |
| `CodeGenerators.CodeGenerator.GenerateCode` | libevmasm/CommonSubexpressionEliminator.cpp:132-214 | Whenever code is returned, running it on any stack that matches the initial classes ends with every target class at its height, the cells below untouched, and the storage and memory of the whole block; every class is computed at most once, so no constant is pushed twice. The only error is a stack that is too deep, and that takes sixteen classes and stack elements together: no element of the initial stack is ever missing, and none of the internal checks can fail |
| `ComputingOnce.LeavesComputedOnce` | libevmasm/CommonSubexpressionEliminator.cpp:302-418 | Code whose computing items belong to classes of their own contains no constant twice, and no other instruction that only depends on the surroundings of the call |
| `Availability.ComputedAvailable` | libevmasm/CommonSubexpressionEliminator.cpp:341-418 | Using up the arguments of a class leaves a copy of every value that the target stack or a class not computed yet still wants |
| `Availability.AllComputed` | libevmasm/CommonSubexpressionEliminator.cpp:193-211 | When the targets and the last stores are computed, so is everything that was recorded as needed; hence nothing above the targets is kept |
| `Generating.SwapMoves` | libevmasm/CommonSubexpressionEliminator.cpp:478-503 | Executing a SWAP on every concrete stack that matches the modelled one gives a stack that matches the exchanged model |
| `Generating.CancelSwaps` | libevmasm/CommonSubexpressionEliminator.cpp:490-503 | Leaving out two SWAP1 in a row gives the same concrete stack |
| `Generating.ApplyMoves` | libevmasm/CommonSubexpressionEliminator.cpp:391-418 | Executing the instruction of a class on its arguments gives the class its value on every matching concrete stack |
| `Elimination.CommonSubexpressionEliminator.FeedItems` | libevmasm/CommonSubexpressionEliminator.h:169-182 | The items fed are those before the first item that breaks the block, and that item is remembered |
| `Elimination.CommonSubexpressionEliminator.OptimizeBreakingItem` | libevmasm/CommonSubexpressionEliminator.cpp:80-120 | A JUMPI becomes a JUMP or disappears and a RETURN becomes STOP, with the same behaviour of the block, unless nothing decisive is known about the condition or size |
| `Elimination.CommonSubexpressionEliminator.GetOptimizedItems` | libevmasm/CommonSubexpressionEliminator.cpp:34-71 | Returned items contain no FREEGAS and give the same stack, storage, memory, outside and control transfer as the block without its FREEGAS, from every state in which that does not fail; they do what the block itself does if and only if it contains no FREEGAS or can never be executed. Before the item that ends the block, every class is computed at most once and no constant is pushed twice. It fails only where so many classes and stack elements are known that some can be out of reach, and for heights beyond 32 bits; the exception for elements that are not available is never thrown |
| `Elimination.FedInputs` | libevmasm/KnownState.cpp:85-178 | Whatever is fed, only elements of the initial stack that lie within the heights the block has looked at have classes |
| `Elimination.InputsArePresent` | libevmasm/CommonSubexpressionEliminator.cpp:53-66 | So the initial stack layout that the generator is given contains every element of the initial stack that any class refers to |
| `Elimination.GeneratedEquivalent` | libevmasm/CommonSubexpressionEliminator.cpp:34-71 | Code that reaches the recorded knowledge is equivalent to the items that were fed |
| `Elimination.AlwaysJumps` | libevmasm/CommonSubexpressionEliminator.cpp:92-100 | SWAP1 POP JUMP does what JUMPI does when the condition is not zero |
| `Elimination.NeverJumps` | libevmasm/CommonSubexpressionEliminator.cpp:101-107 | POP POP does what JUMPI does when the condition is zero |
| `Elimination.ReturnsNothing` | libevmasm/CommonSubexpressionEliminator.cpp:109-119 | STOP after two POPs does what RETURN with size zero does |
| `FreeGas.ShedsBehave` | libevmasm/Instruction.cpp:220 | A program that has lost occurrences of FREEGAS runs as before, jumps and loops included, up to the number of charges, in every environment where nothing but the outside shows a charge |
| `Elimination.DropsCharges` | libevmasm/CommonSubexpressionEliminator.cpp:34-71 | Code without FREEGAS that does what a block does when its FREEGAS is left out does what the block does exactly if there is none, or the block can never be executed; otherwise counting the charges tells them apart |
| `Elimination.ChargeIsLost` | libsolidity/codegen/ContractCompiler.cpp:617-618 | The end of a function with the modifier `freegas` is not equivalent to the jump that is left of it |
| `CsePass.EliminateSubexpressions` | libevmasm/Assembly.cpp:444-487 | The program is cut into maximal blocks, which loads from memory end as well where MSIZE occurs, and a block is replaced exactly where the code found for it is shorter. That keeps the behaviour of every whole program without FREEGAS; any program keeps it up to charges, in environments where nothing else shows them; the result is shorter or unchanged and makes up no tags. It never fails for programs of fewer than 126 million items |
| `CsePass.ChargesAside` | libevmasm/Assembly.cpp:444-487 | What is left of a program that has lost charges ends in the same status, output, stack, storage and memory, in both directions, where nothing but the outside shows a charge |
| `Optimising.RemoveAndRewrite` | libevmasm/Assembly.cpp:405-431 | Removal of jump destinations and peephole passes keep the behaviour of runs that enter only pushed or outside-referenced tags, and fail exactly for foreign tags used as labels |
| `Optimising.OptimiseRound` | libevmasm/Assembly.cpp:405-488 | One round over all passes keeps the behaviour of such runs, in both directions, up to addresses of tags in front of equal blocks; with common subexpression elimination that takes a program without FREEGAS, and all others keep it up to charges. A round that reports a change has made the program lighter, one that does not has found nothing to do in any pass, and it never fails for programs of fewer than 126 million items |
| `Repeating.Optimise` | libevmasm/Assembly.cpp:405-488 | The rounds are repeated until none of the passes finds anything to do, which always comes to an end: every round that changes something makes the program shorter, or lighter for the peephole optimiser, or pushes earlier tags; no round fails for programs of fewer than 126 million items |
| `Repeating.RoundsCorrect` | libevmasm/Assembly.cpp:405-488 | All rounds together keep the behaviour in both directions, up to tags identified on the way and charges, for runs that at the start of no round enter a tag that is not referenced any more |
| `Blocks.LessIsStrictWeakOrder` | libevmasm/BlockDeduplicator.cpp:51-76 | The comparator is a strict weak order whose equivalence is equality of the normalised block sequences |
| `Blocks.WalkFlatten` | libevmasm/BlockDeduplicator.cpp:125-146 | The block iterator with its virtual tag visits exactly the normalised sequence, skipping tags and stopping behind terminators |
| `Blocks.MergeCongruent` | libevmasm/BlockDeduplicator.cpp:81-92 | Identifying two tags in front of blocks that are equal up to their own tag is a congruence again |
| `Labels.RunSame` | libevmasm/BlockDeduplicator.cpp:37-98 | Programs that only move, drop or jump to pushed tags are bisimilar up to identified tags, self-looping blocks included |
| `Labels.RunConcrete` | libevmasm/BlockDeduplicator.cpp:37-98 | The machine with symbolic tags refines the concrete machine with addresses |
| `Labels.RenamedBehaves` | libevmasm/BlockDeduplicator.cpp:37-98 | On the concrete machine the rewritten program ends with the same status, output, storage and memory, and the same stack up to addresses of identified tags |
| `Deduplication.BlockDeduplicator.ApplyTagReplacement` | libevmasm/BlockDeduplicator.cpp:100-123 | Exactly the pushed local tags that are keys are replaced in place, and the result says whether any was |
| `Deduplication.BlockDeduplicator.FindReplacements` | libevmasm/BlockDeduplicator.cpp:81-92 | Every tag in front of a block equal to an earlier one gets that one as its replacement |
| `Deduplication.BlockDeduplicator.Deduplicate` | libevmasm/BlockDeduplicator.cpp:37-98 | The fixpoint loop ends for unique tags, in spite of stale replacements; the result is behaviourally equal and pushes only the first of equal blocks |
| `Deduplication.AllReplacedLighter` | libevmasm/BlockDeduplicator.cpp:94-97 | Every effective replacement moves a pushed tag to a strictly earlier tag position |
| `Constants.ComputeMethod.FindRepresentation` | libevmasm/ConstantOptimiser.cpp:180-235 | The recursion ends for every value and every remaining budget, since the value strictly decreases; the routine computes exactly the value and, with what is left of the budget, is exactly what the search with a budget is defined to give |
| `Constants.SearchFinds` | libevmasm/ConstantOptimiser.cpp:180-235 | While the budget lasts, the search finds the representation that the definition by cost gives |
| `Constants.CheapestIsLeast` | libevmasm/ConstantOptimiser.cpp:191-234 | That representation costs no more than a push and no more than any split at a gap with its parts represented in the same way, and is one of these |
| `Constants.PowersAreCheap` | libevmasm/ConstantOptimiser.cpp:191-234 | A power of two from 2^16 on costs no more than computing it by EXP |
| `Constants.SplitFacts` | libevmasm/ConstantOptimiser.cpp:200-212 | Splitting a value at a bit gives a multiple of the power of two and a possibly negative remainder that add up to it, and both parts are smaller |
| `Constants.AssembleRepresents` | libevmasm/ConstantOptimiser.cpp:214-223 | Power, multiplication and addition or subtraction put the parts together again modulo 2^256 |
| `Constants.CheckRepresentation` | libevmasm/ConstantOptimiser.cpp:237-283 | The small evaluator accepts a routine exactly if it computes the value and nothing else |
| `Constants.RepresentationOf` | libevmasm/ConstantOptimiser.h:140-150 | The check of the computed routine always succeeds |
| `Constants.TinyIsExec` | libevmasm/ConstantOptimiser.cpp:237-283 | What the small evaluator computes is what the machine does |
| `Constants.CopyPushes` | libevmasm/ConstantOptimiser.cpp:154-178 | The routine that copies the value from the data section pushes it and restores memory |
| `Constants.ChooseMethod` | libevmasm/ConstantOptimiser.cpp:52-70 | The cheapest of literal, copy and computed routine is chosen exactly as the original does, with its ties, for the routine that the search gives, and the routine is right |
| `Constants.OptimiseConstants` | libevmasm/ConstantOptimiser.cpp:29-76 | The decision for every constant of the program is exactly that of its costs and its number of occurrences, the replaced program is the program with these replacements, and it behaves like the original wherever the added data is in place; constants below 256 are left alone |
| `Encoding.BigEndianRoundTrip` | libdevcore/CommonData.h:102-122 | A number that fits into n bytes reads back from its big-endian form |
| `Encoding.FromBytesRoundTrip` | libdevcore/CommonData.h:102-122 | Bytes are the big-endian form of the number they denote |
| `Encoding.ToBigEndian` | libdevcore/CommonData.h:102-110 | The loop from the last byte to the first writes the big-endian form and leaves the rest of the buffer alone |
| `Encoding.FromBigEndian` | libdevcore/CommonData.h:116-122 | The loop computes the number modulo the size of its type |
| `Encoding.CountBytes` | libdevcore/CommonData.h:183-189 | The number of bytes is the least n with the value below 256^n |
| `Encoding.EachInstruction` | libevmasm/Instruction.cpp:336-363 | The loop visits exactly the instructions of the code with their zero-padded operands |
| `Widths.SearchWidth` | libevmasm/Assembly.cpp:96-109 | The width search ends for every assembly, also with 32-bit wrap-around, and returns the estimate for the first width that is enough for it |
| `Widths.FindTagSize` | libevmasm/Assembly.cpp:98-108 | The found width is enough and every smaller one from the start is not; it is at most four or the start |
| `Widths.ComputePlan` | libevmasm/Assembly.cpp:510-532 | The reserved widths are those of the estimated sizes |
| `FinalAssembly.CodeWithinEstimate` | libevmasm/Assembly.cpp:96-109 | A sufficient condition: the code is shorter than the estimate if the object stays below four gigabytes and references to data are not wider than the tag size of the estimate or do not occur |
| `FinalAssembly.TagNeverTooLarge` | libevmasm/Assembly.cpp:657 | Under that condition the check for tags that are too large for the reserved space cannot fire, also for positions in sub-assemblies |
| `FinalAssembly.LookupTarget` | libevmasm/Assembly.cpp:644-660 | A pushed tag is resolved exactly if it has a position and that position is below 256 to the reserved width, and the check for the reserved space fires exactly if there is one that is not |
| `FinalAssembly.RoomSuffices` | libevmasm/Assembly.cpp:505-682 | Under the same condition every assemblable input is accepted, and every place in the object fits into references to data |
| `NarrowAssemblies.CrowdedRefused` | libevmasm/Assembly.cpp:657 | An assembly of 19 items whose tags are all in order and which is nevertheless refused, since references to data are wider than estimated |
| `NarrowAssemblies.TruncatedReference` | libevmasm/Assembly.cpp:637-641 | An accepted assembly of three items whose reference to the second sub-assembly is truncated to zero |
| `Assembling.EmitItem` | libevmasm/Assembly.cpp:538-626 | One item is emitted with its opcode and operand, its reference is recorded at the right position, and it fails exactly for ill-formed items, repeated tags and positions of four gigabytes or more |
| `Assembling.EmitItems` | libevmasm/Assembly.cpp:538-626 | The loop emits the code of all items, records all references and places every tag at its position |
| `Layouts.FillCode` | libevmasm/Assembly.cpp:632-681 | Filling in references by overwriting bytes turns the code with open references into the code with their values, and touches nothing else |
| `Assembling.AppendSubs` | libevmasm/Assembly.cpp:632-643 | Every sub-assembly that is referred to is appended once, its references point to it, and references filled in before stay right |
| `Assembling.AppendData` | libevmasm/Assembly.cpp:661-672 | The same for the entries of the data section |
| `Assembling.ResolveTags` | libevmasm/Assembly.cpp:644-660 | Tag positions are written into the code; the resolution fails exactly if some pushed tag has no position that fits |
| `FinalAssembly.Assemble` | libevmasm/Assembly.cpp:505-682 | For every declared input: success exactly if all items are well formed, no tag is placed twice or beyond four gigabytes, and every pushed tag has a position that fits the reserved width; the result is the laid-out code, an INVALID where something follows, sub-assemblies and data at their exact places, and the bytes of the auxiliary data at the end |
| `AssembledCode.DecodesExactly` | libevmasm/Instruction.cpp:336-363 | Decoding the code section gives back one instruction per item if and only if no push opcode was given as a plain operation before the last item |
| `AssembledCode.NoCatchUp` | libevmasm/Instruction.cpp:336-363 | A decoder that has swallowed items as operands never gets back into step |
| `FinalAssembly.TagsOwn` | libevmasm/Assembly.cpp:614-622 | A recorded position of a non-zero tag is the start of a decoded instruction which is a JUMPDEST |
| `FinalAssembly.LaidIsFaithful` | libevmasm/Assembly.cpp:505-682 | Each decoded instruction does what its item says: literals, strings, sizes, tag positions on JUMPDESTs; data and sub-assemblies are at their places, and a reference to them or to the size is right exactly if the number fits the reserved bytes |
| `FinalAssembly.AssembleProgram` | libevmasm/Assembly.cpp:505-682 | The assembler as a whole: success exactly on acceptable input, below four gigabytes exactly if all tags have positions that fit, and a result of the exact size that decodes to what was asked for and ends in the auxiliary data |
| `LllCompiler.Assembly.AppendCode` | libevmasm/Assembly.cpp:40-69 | Appending a fragment renumbers its tags so that no tag is placed twice and adds up the deposits; it fails exactly if the tags do not suffice, and the check of the deposit in front of each item never fires |
| `LllCompiler.Assembly.AppendKeeping` | libevmasm/Assembly.cpp:71-78 | All but the first d values of a fragment are discarded; it fails exactly for a larger d or if the tags do not suffice |
| `LllCompiler.CompileArith` | liblll/CodeFragment.cpp:466-477 | The code of an n-ary operation computes the left fold of its arguments |
| `LllCompiler.CompileCompare` | liblll/CodeFragment.cpp:478-489 | The code of a comparison, negated for <=, >= and !=, computes it |
| `LllCompiler.CompileUnary` | liblll/CodeFragment.cpp:490-497 | The code of ! and ~ computes them |
| `LllCompiler.CompileIf` | liblll/CodeFragment.cpp:498-521 | Only the chosen branch runs, and both leave the smaller of the two deposits |
| `LllCompiler.CompileWhen` | liblll/CodeFragment.cpp:522-532 | WHEN and UNLESS run their body exactly if the condition says so and leave nothing |
| `LllCompiler.CompileWhile` | liblll/CodeFragment.cpp:533-546 | WHILE and UNTIL repeat as the evaluator does, without end if it does not end |
| `LllCompiler.CompileFor` | liblll/CodeFragment.cpp:547-561 | FOR runs initialisation, condition, body and step in this order |
| `LllCompiler.CompileSwitch` | liblll/CodeFragment.cpp:562-599 | SWITCH runs the body of the first condition that holds, or the default |
| `LllCompiler.CompileShort` | liblll/CodeFragment.cpp:653-679 | The short-circuit conjunction and disjunction evaluate from the left and stop as soon as the result is known |
| `LllCompiler.CompileSeq` | liblll/CodeFragment.cpp:680-688 | SEQ keeps the values of its last expression only |
| `LllCompiler.Compile` | liblll/CodeFragment.cpp:379-710 | A tree compiles if and only if every construct in it has the number of arguments and values it asks for and the tags suffice; then its code is correct in every context, with the statically tracked deposit equal to the number of values the evaluator leaves |
| `LllCompiler.ProgramCorrect` | liblll/CodeFragment.cpp:379-710 | A compiled program ends as the direct evaluator says, with the values of the expression on the stack, and diverges if the evaluator does |
| `LllRules.SimSwitch` | liblll/CodeFragment.cpp:562-599 | The code of SWITCH simulates the evaluator from every surrounding program |
| `LllRules.SimIterate` | liblll/CodeFragment.cpp:533-561 | Each loop iteration of the evaluator corresponds to one round trip through the loop code |
| `Linearisation.MergeSound` | libsolidity/analysis/NameAndTypeResolver.cpp:426-472 | A successful merge has no duplicates, consists of exactly the elements of the lists and respects the order of each |
| `Linearisation.MergeComplete` | libsolidity/analysis/NameAndTypeResolver.cpp:426-472 | If any order consistent with all lists exists, the merge succeeds |
| `Linearisation.CThreeMerge` | libsolidity/analysis/NameAndTypeResolver.cpp:426-472 | The loop over lists that shrink in place: an empty result means exactly that there is no common order or nothing to order; at every position of another result stands the first head of the remaining lists that none of them still waits for |
| `Linearisation.OrderUnique` | libsolidity/analysis/NameAndTypeResolver.cpp:438-447 | The rule that the first possible head comes next leaves one order only, so that the result is determined among all orders that respect the lists |
| `Linearisation.ContractFirst` | libsolidity/analysis/NameAndTypeResolver.cpp:396-423 | The first candidate is the contract itself, since all other heads are among its direct bases |
| `Linearisation.Resolver.LinearizeBaseContracts` | libsolidity/analysis/NameAndTypeResolver.cpp:396-423 | Succeeds exactly if the bases are known and an order exists; the result starts with the contract and is recorded, is the one order that the choice of the first possible head leaves, with bases mentioned later before those mentioned earlier, and every record keeps starting with its own contract |
| `UnassignedReturns.StepInv` | libsolidity/analysis/ControlFlowAnalyzer.cpp:101-126 | One round keeps: every recorded variable arrives on some path, and settled nodes have passed everything on |
| `UnassignedReturns.EndsExact` | libsolidity/analysis/ControlFlowAnalyzer.cpp:98-126 | Whenever the work list is empty, each node holds exactly the variables some path from the entry leaves unassigned |
| `UnassignedReturns.EndsIffCalm` | libsolidity/analysis/ControlFlowAnalyzer.cpp:98-126 | The loop ends if and only if no circle of nodes exists in which each passes on a variable that the next one kills |
| `UnassignedReturns.HarmlessCyclesEnd` | libsolidity/analysis/ControlFlowAnalyzer.cpp:122-123 | The loop ends if every cycle of the graph contains a node that kills no tracked variable |
| `UnassignedReturns.SingleEntryLoopsEnd` | libsolidity/analysis/ControlFlowAnalyzer.cpp:122-123 | The loop ends on every graph each of whose cycles has a node through which alone it can be entered, whatever the nodes kill |
| `FunctionFlows.BuildGood` | libsolidity/analysis/ControlFlowBuilder.cpp:62-246 | In the flow of every statement, edges lead forward or back to the head of a loop around them, and loops are entered at their heads only |
| `FunctionFlows.FunctionSingleEntry` | libsolidity/analysis/ControlFlowBuilder.cpp:29-40 | Every cycle in the flow of a function can be entered at one of its nodes only |
| `FunctionFlows.FunctionsEnd` | libsolidity/analysis/ControlFlowAnalyzer.cpp:98-126 | On the flow of every function without modifiers the loop ends |
| `FunctionWays.CanWhile` | libsolidity/analysis/ControlFlowBuilder.cpp:154-198 | Some way through a while loop ends like this and leaves the variable unassigned exactly if the condition alone has one, or the condition and then a way out of the body |
| `FunctionWays.CanFor` | libsolidity/analysis/ControlFlowBuilder.cpp:121-151 | The same for a for loop with its step, which continue leads to |
| `FunctionWays.BuildFaithful` | libsolidity/analysis/ControlFlowBuilder.cpp:62-246 | The flow built for a statement has exactly the ways of the statement: its end, and the target of each kind of jump, is reached with a variable unassigned if and only if some way through the statement ends there and leaves it unassigned |
| `FunctionWays.GraphHasTheWays` | libsolidity/analysis/ControlFlowBuilder.cpp:29-40 | A variable survives to the exit of the graph of a function if and only if some way that ends normally or by return leaves it unassigned |
| `FunctionWays.CheckUnassigned` | libsolidity/analysis/ControlFlowAnalyzer.cpp:76-126 | For every function without modifiers: a tracked variable is reported exactly if some way through the body, told by recursion on the statements without the graph, ends normally or by return and leaves it unassigned |
| `UnassignedReturns.CircleNeverEnds` | libsolidity/analysis/ControlFlowAnalyzer.cpp:122-123 | On an arbitrary graph the finite number of variables alone does not make the loop end: on a circle with three entries, which no function has, it runs for ever |
| `UnassignedReturns.FindUnassigned` | libsolidity/analysis/ControlFlowAnalyzer.cpp:76-126 | The loop itself, on exactly the graphs on which it ends, among them all flows of functions: the set of the exit node is what some path leaves unassigned |
| `UnassignedReturns.Traverse` | libsolidity/analysis/ControlFlowAnalyzer.cpp:101-126 | One round of the loop, with the comparison of set sizes as the test for news |
| `CycleDetection.CycleDetector.Run` | libdevcore/Algorithms.h:50-74 | The recursive search answers null only for vertices from which no cycle can be reached, and otherwise names a vertex from which one can |
| `CycleDetection.FindCycle` | libdevcore/Algorithms.h:50-74 | The answer is null exactly if no cycle is reachable from the start; otherwise it is a successor of the start from which a cycle is reachable |
| `CycleDetection.OneMore` | libdevcore/Algorithms.h:69-73 | A vertex all of whose successors are processed leads to no cycle |
| `EditDistance.StringDistance` | libdevcore/StringUtils.cpp:49-87 | The table of three rolling rows gives the value of the full recursive definition |
| `EditDistance.DistanceLeast` | libdevcore/StringUtils.cpp:57-86 | No script of insertions, deletions, substitutions and transpositions of neighbours is cheaper than the distance |
| `EditDistance.DistanceReached` | libdevcore/StringUtils.cpp:57-86 | Some such script costs exactly the distance |
| `EditDistance.DistanceSymmetric` | libdevcore/StringUtils.cpp:49-87 | The distance is symmetric |
| `EditDistance.DistanceZero` | libdevcore/StringUtils.cpp:49-87 | The distance is zero exactly on equal strings |
| `EditDistance.DistanceBounds` | libdevcore/StringUtils.cpp:49-87 | The distance is at least the difference of the lengths and at most the longer length |
| `EditDistance.StringWithinDistance` | libdevcore/StringUtils.cpp:29-47 | Two names are similar exactly if they are equal, or not too long and some cheap script turns one into the other |

## Left out

- Elimination.CommonSubexpressionEliminator.GetOptimizedItems: starts from an empty initial state, as the optimiser uses it; the state after the block, fed with the breaking item, is not modelled.
- KnownStates.KnownState.FeedItem: KECCAK256 ends a block, because the original remembers its results by loaded words without the length.
- KnownStates.KnownState.FeedItem: joining two states and sets of tags on the stack (`reduceToCommonKnowledge`, `tagUnion`) are not modelled; the optimiser does not use them.
- CodeGenerators.CodeGenerator.GenerateCode: the internal checks of the original are proved never to fail and are preconditions of the steps instead of errors; stack heights that do not fit 32 bits are the error `Overflow`.
- Rules.FirstMatchSound: patterns without arguments match only expressions without arguments.
- Gas, PC and MSIZE: their values are answers of `query`, equal in both programs; the passes change code layout and cost by design. Gas limits, the stack limit of 1024 and memory expansion are not modelled; that a missing FREEGAS makes a transaction fail is part of its effect on the outside.
- Elimination works on programs whose addresses have 160 bits (`AddressesFit`); tag positions are below 2^32 where a pass relies on it (`TagsFit`).
- Deduplication.BlockDeduplicator.Deduplicate: needs tags that are unique and fit 64 bits; replacements handed to a parent assembly are not composed.
- Optimising.OptimiseRound: for deduplication, pushed tags must only be moved, dropped and jumped to.
- Peephole.OptimiseUntilStable: the error of the original after 64000 passes in a row is left out; it takes at least 12800 items to get there.
- Repeating.RoundsCorrect: that runs enter no tag that has become unreferenced is a premise, since addresses are plain numbers that a program could compute.
- Optimisation of sub-assemblies and tags crossing them; the assembler takes sub-assemblies as finished objects.
- Link references, source maps, assembly text and JSON output; positions that the linker or deployment fills in are zero.
- `assemble` returning the object of an earlier call.
- Constants.OptimiseConstants: costs are parameters, so the choice is right for every cost table; the hash that names a data entry is a parameter as well.
- LllCompiler.Compile: macros, variables, ALLOC, LLL, ASM, RAW, strings and includes are not modelled, nor JUMP and JUMPI used as functions; the 32-bit counter of tags ends in an error instead of wrapping around.
- LllCompiler.ProgramCorrect: running out of stack space and gas is not modelled.
- Linearisation.Resolver.LinearizeBaseContracts: the set of contract dependencies is not recorded.
- UnassignedReturns.FindUnassigned: nodes are known by the sets of tracked variables they kill, and the warning texts are left out; graphs on which the original does not end are no input.
- FunctionWays.CheckUnassigned: modifiers are not spliced into the flow, and labels are numbered when they are placed.
- CycleDetection.CycleDetector.Run: the visitor is the one all callers use, except for their limit on the depth.
- Control flow graphs, the gas estimator, the type checker and other analyses, parsers, the command line and all printing.
